/**
 * The image uploader (components/ui/ImageUpload.tsx): the quota test on a drop, the all-or-nothing
 * append once every upload has settled, removing one image, and the dropzone's cap and disabled rule.
 * The upload of each file is not modelled; what it yields is given as a sequence of outcomes, one
 * per dropped file, in the order the files were dropped.
 */
module ImageUpload {
  import opened Wrappers

  /** The `maxFiles` used when the owner passes none. */
  const DefaultMaxFiles := 5

  /** What uploading one file produced: the hosted URL, or a failure (read error, non-ok response). */
  datatype Outcome = Uploaded(url: string) | Failed

  /** The test that turns a drop away before anything is uploaded. */
  predicate ExceedsQuota(current: nat, dropped: nat, maxFiles: int) {
    current + dropped > maxFiles
  }

  /** `Promise.all` over the uploads: every URL in file order, or nothing once any upload fails. */
  function AllUrls(outcomes: seq<Outcome>): (r: Option<seq<string>>)
    ensures r.Some? <==> forall k :: 0 <= k < |outcomes| ==> outcomes[k].Uploaded?
    ensures r.Some? ==> |r.value| == |outcomes|
    ensures r.Some? ==> forall k :: 0 <= k < |outcomes| ==> r.value[k] == outcomes[k].url
  {
    if outcomes == [] then Some([])
    else
      match outcomes[0]
      case Failed => None
      case Uploaded(u) =>
        match AllUrls(outcomes[1..])
        case None => None
        case Some(us) => Some([u] + us)
  }

  /**
   * The list after the uploads settle: the list the drop saw followed by the new URLs when every
   * upload succeeded; otherwise `onChange` is not called and the current list stays.
   */
  function SettledList(seen: seq<string>, current: seq<string>, outcomes: seq<Outcome>): seq<string> {
    match AllUrls(outcomes)
    case Some(urls) => seen + urls
    case None => current
  }

  /** One drop with nothing else happening while it uploads. */
  function DropOnce(images: seq<string>, outcomes: seq<Outcome>, maxFiles: int): seq<string> {
    if ExceedsQuota(|images|, |outcomes|, maxFiles) then images
    else SettledList(images, images, outcomes)
  }

  /** A drop over the quota leaves the list as it was. */
  lemma OverQuotaUnchanged(images: seq<string>, outcomes: seq<Outcome>, maxFiles: int)
    requires ExceedsQuota(|images|, |outcomes|, maxFiles)
    ensures DropOnce(images, outcomes, maxFiles) == images
  {
  }

  /** A drop whose uploads all succeed appends their URLs in file order, and stays within `maxFiles`. */
  lemma AcceptedDropAppends(images: seq<string>, outcomes: seq<Outcome>, maxFiles: int)
    requires !ExceedsQuota(|images|, |outcomes|, maxFiles)
    requires forall k :: 0 <= k < |outcomes| ==> outcomes[k].Uploaded?
    ensures var r := DropOnce(images, outcomes, maxFiles);
      |r| == |images| + |outcomes| && |r| <= maxFiles && r[..|images|] == images &&
      forall k :: 0 <= k < |outcomes| ==> r[|images| + k] == outcomes[k].url
  {
    var r := DropOnce(images, outcomes, maxFiles);
    assert r == images + AllUrls(outcomes).value;
  }

  /** A single failed upload discards the whole batch. */
  lemma FailedDropUnchanged(images: seq<string>, outcomes: seq<Outcome>, maxFiles: int, k: int)
    requires 0 <= k < |outcomes| && outcomes[k].Failed?
    ensures DropOnce(images, outcomes, maxFiles) == images
  {
  }

  /** Whatever a drop does, the list never ends up both changed and longer than `maxFiles`. */
  lemma DropRespectsQuota(images: seq<string>, outcomes: seq<Outcome>, maxFiles: int)
    ensures var r := DropOnce(images, outcomes, maxFiles);
      r == images || (|r| <= maxFiles && r[..|images|] == images)
  {
    if !ExceedsQuota(|images|, |outcomes|, maxFiles) && AllUrls(outcomes).Some? {
      AcceptedDropAppends(images, outcomes, maxFiles);
    }
  }

  /** `removeImage`: keeps every entry whose position is not `index`, in order. */
  function RemoveAt(images: seq<string>, index: int): (r: seq<string>)
    ensures 0 <= index < |images| ==> r == images[..index] + images[index + 1..]
    ensures !(0 <= index < |images|) ==> r == images
  {
    if images == [] then []
    else (if index == 0 then [] else [images[0]]) + RemoveAt(images[1..], index - 1)
  }

  /** The number of files the dropzone lets through at once. */
  function DropCap(current: nat, maxFiles: int): int {
    maxFiles - current
  }

  /** The dropzone takes no files while an upload runs or once the list is full. */
  predicate Disabled(uploading: bool, current: nat, maxFiles: int) {
    uploading || current >= maxFiles
  }

  /** A drop that respects the dropzone's cap always passes the quota test, and an enabled dropzone admits at least one file. */
  lemma CapMatchesQuota(current: nat, dropped: nat, maxFiles: int, uploading: bool)
    ensures dropped <= DropCap(current, maxFiles) <==> !ExceedsQuota(current, dropped, maxFiles)
    ensures !Disabled(uploading, current, maxFiles) ==> DropCap(current, maxFiles) >= 1
  {
  }

  /** Once a list is full no file can be added. */
  lemma FullListTakesNothing(current: nat, dropped: nat, maxFiles: int)
    requires current >= maxFiles && dropped > 0
    ensures ExceedsQuota(current, dropped, maxFiles)
  {
  }

  /**
   * The uploader with its owner's list. `value` is the owner's image list; `snapshot` and `pending`
   * are the list and the number of files the running `onDrop` captured.
   */
  class Uploader {
    var value: seq<string>
    var uploading: bool
    var snapshot: seq<string>
    var pending: nat
    const maxFiles: int

    /** A running batch fits the quota of the list it was dropped on. */
    ghost predicate Valid()
      reads this
    {
      uploading ==> |snapshot| + pending <= maxFiles
    }

    /** Mounting: `value` defaults to no images and `maxFiles` to 5. */
    constructor (initial: Option<seq<string>>, maxFilesProp: Option<int>)
      ensures Valid()
      ensures value == initial.GetOr([]) && maxFiles == maxFilesProp.GetOr(DefaultMaxFiles)
      ensures !uploading && snapshot == [] && pending == 0
    {
      value := initial.GetOr([]);
      maxFiles := maxFilesProp.GetOr(DefaultMaxFiles);
      uploading := false;
      snapshot := [];
      pending := 0;
    }

    /**
     * `onDrop` up to the point where it waits for the uploads: over the quota it refuses the drop
     * and changes nothing; otherwise it marks the upload as running and captures the current list.
     */
    method Drop(files: nat) returns (accepted: bool)
      requires Valid() && !uploading
      modifies this
      ensures Valid() && value == old(value)
      ensures accepted <==> !ExceedsQuota(|old(value)|, files, maxFiles)
      ensures !accepted ==> !uploading && snapshot == old(snapshot) && pending == old(pending)
      ensures accepted ==> uploading && snapshot == old(value) && pending == files
    {
      if |value| + files > maxFiles {
        return false;
      }
      uploading := true;
      snapshot := value;
      pending := files;
      return true;
    }

    /** The rest of `onDrop` once every upload has settled: the all-or-nothing `onChange`, then `uploading` off. */
    method Settle(outcomes: seq<Outcome>) returns (succeeded: bool)
      requires Valid() && uploading && |outcomes| == pending
      modifies this
      ensures Valid() && !uploading && snapshot == old(snapshot) && pending == old(pending)
      ensures succeeded <==> forall k :: 0 <= k < |outcomes| ==> outcomes[k].Uploaded?
      ensures value == SettledList(old(snapshot), old(value), outcomes)
      ensures succeeded ==> |value| <= maxFiles
    {
      var urls := AllUrls(outcomes);
      if urls.Some? {
        value := snapshot + urls.value;
        succeeded := true;
      } else {
        succeeded := false;
      }
      uploading := false;
    }

    /** `removeImage`, which stays available while an upload runs. */
    method RemoveImage(index: int)
      requires Valid()
      modifies this
      ensures Valid() && uploading == old(uploading) && snapshot == old(snapshot) && pending == old(pending)
      ensures value == RemoveAt(old(value), index)
    {
      value := RemoveAt(value, index);
    }
  }

  /**
   * A removal made while a batch uploads is undone when the batch succeeds: the append starts from
   * the list the drop captured, not from the current one.
   */
  lemma RemovalDuringUploadIsUndone(images: seq<string>, index: int, outcomes: seq<Outcome>)
    requires 0 <= index < |images|
    requires forall k :: 0 <= k < |outcomes| ==> outcomes[k].Uploaded?
    ensures SettledList(images, RemoveAt(images, index), outcomes)[..|images|] == images
  {
    var urls := AllUrls(outcomes).value;
    assert SettledList(images, RemoveAt(images, index), outcomes) == images + urls;
  }
}

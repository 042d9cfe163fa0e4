/**
 * The three-step product form (components/products/MultiStepProductForm.tsx): the state `step`,
 * `errors` and `formData`, the handlers that change it, the step validation that gates moving
 * forward and submitting, and the comma-separated tags field.
 */
module ProductWizard {
  import opened Wrappers
  import opened Text
  import opened ProductValidation
  import ProductModel
  import opened Seqs

  /** The form's `formData`. */
  datatype Draft = Draft(
    name: string,
    description: string,
    category: string,
    tags: seq<string>,
    sku: string,
    price: real,
    compareAtPrice: Option<real>,
    cost: real,
    stockQuantity: real,
    lowStockThreshold: real,
    images: seq<string>,
    isActive: bool)

  /** The initial `formData` of a new product. */
  const EmptyDraft := Draft("", "", "", [], "", 0.0, Some(0.0), 0.0, 0.0, 10.0, [], true)

  /** The objects `validateStep` hands to the three step schemas. */
  function BasicSlice(d: Draft): BasicInput {
    BasicInput(d.name, d.description, d.category, d.tags, d.sku)
  }

  function PricingSlice(d: Draft): PricingInput {
    PricingInput(
      Num(d.price), if d.compareAtPrice.Some? then Num(d.compareAtPrice.value) else Missing,
      Num(d.cost), Num(d.stockQuantity), Num(d.lowStockThreshold))
  }

  function ImagesSlice(d: Draft): ImagesInput {
    ImagesInput(d.images, Some(d.isActive))
  }

  /** The object the create route parses with the merged schema. */
  function FormOf(d: Draft): FormInput {
    FormInput(BasicSlice(d), PricingSlice(d), ImagesSlice(d))
  }

  /** The issues `validateStep(k)` gets from the schema of step `k`; any other step number parses nothing. */
  function StepIssues(k: int, d: Draft): seq<Issue> {
    if k == 1 then BasicIssues(BasicSlice(d))
    else if k == 2 then PricingIssues(PricingSlice(d))
    else if k == 3 then ImagesIssues(ImagesSlice(d))
    else []
  }

  predicate StepAccepts(k: int, d: Draft) {
    StepIssues(k, d) == []
  }

  /** A draft all three steps accept is accepted by the merged schema. */
  lemma AllStepsAcceptMeansProductAccepts(d: Draft)
    requires StepAccepts(1, d) && StepAccepts(2, d) && StepAccepts(3, d)
    ensures ParseProduct(FormOf(d)).Ok?
  {
  }

  // ---------------------------------------------------------------- the error map

  /**
   * The map `validateStep`'s loop builds from a ZodError: each issue stored under its field, a later
   * issue for the same field replacing an earlier one.
   */
  function ErrorMap(issues: seq<Issue>): map<Field, string> {
    if issues == [] then map[]
    else ErrorMap(issues[..|issues| - 1])[issues[|issues| - 1].path := issues[|issues| - 1].message]
  }

  /** A field has an error exactly when some issue is keyed to it, and it shows the last such message. */
  lemma {:induction false} ErrorMapLastWins(issues: seq<Issue>, f: Field)
    ensures f in ErrorMap(issues) <==> MessagesFor(issues, f) != []
    ensures f in ErrorMap(issues) ==>
      ErrorMap(issues)[f] == MessagesFor(issues, f)[|MessagesFor(issues, f)| - 1]
  {
    if issues != [] {
      var init, last := issues[..|issues| - 1], issues[|issues| - 1];
      assert issues == init + [last];
      MessagesForAppend(init, [last], f);
      assert MessagesFor([last], f) == if last.path == f then [last.message] else [] by {
        assert [last][1..] == [];
      }
      ErrorMapLastWins(init, f);
    }
  }

  /** A negative fractional stock shows the stock message, not the integer one: the later issue wins. */
  lemma StockErrorLastWins(d: Draft)
    requires d.stockQuantity < 0.0 && !IsInteger(d.stockQuantity)
    ensures StockQuantity in ErrorMap(StepIssues(2, d))
    ensures ErrorMap(StepIssues(2, d))[StockQuantity] == StockNegative
  {
    NegativeFractionalStock(PricingSlice(d));
    ErrorMapLastWins(StepIssues(2, d), StockQuantity);
  }

  /** Advancing from step 1 with an empty name always yields the name error. */
  lemma EmptyNameBlocksStep1(d: Draft)
    requires d.name == ""
    ensures !StepAccepts(1, d)
    ensures Name in ErrorMap(StepIssues(1, d))
    ensures ErrorMap(StepIssues(1, d))[Name] == NameRequired
  {
    NameMessages(BasicSlice(d));
    ErrorMapLastWins(StepIssues(1, d), Name);
  }

  // ---------------------------------------------------------------- edits

  /** What an input element reports: the text of a text field, or the `parseFloat` of a number field (`None` for NaN). */
  datatype Control = TextControl(text: string) | NumberControl(parsed: Option<real>)

  /** `parseFloat(value) || 0`: NaN becomes 0. */
  function NumberValue(parsed: Option<real>): (v: real)
    ensures parsed.None? ==> v == 0.0
    ensures parsed.Some? ==> v == parsed.value
  {
    match parsed
    case Some(x) => x
    case None => 0.0
  }

  /** The fields whose inputs call `handleChange`, with the kind of element each one is. */
  predicate Routed(f: Field, c: Control) {
    match f
    case Name | Description | Category | Sku => c.TextControl?
    case Price | CompareAtPrice | Cost | StockQuantity | LowStockThreshold => c.NumberControl?
    case _ => false
  }

  /** `{ ...prev, [name]: value }` for a field routed through `handleChange`. */
  function Assign(d: Draft, f: Field, c: Control): Draft
    requires Routed(f, c)
  {
    match f
    case Name => d.(name := c.text)
    case Description => d.(description := c.text)
    case Category => d.(category := c.text)
    case Sku => d.(sku := c.text)
    case Price => d.(price := NumberValue(c.parsed))
    case CompareAtPrice => d.(compareAtPrice := Some(NumberValue(c.parsed)))
    case Cost => d.(cost := NumberValue(c.parsed))
    case StockQuantity => d.(stockQuantity := NumberValue(c.parsed))
    case LowStockThreshold => d.(lowStockThreshold := NumberValue(c.parsed))
  }

  /** Editing a field of one step leaves the verdict and the issues of every other step as they were. */
  lemma AssignKeepsOtherSteps(d: Draft, f: Field, c: Control, j: int)
    requires Routed(f, c) && j != StepOf(f)
    ensures StepIssues(j, Assign(d, f, c)) == StepIssues(j, d)
  {
  }

  /** `handleTagsChange`: split on commas, then trim each piece; empty pieces are kept. */
  function ParseTags(raw: string): seq<string> {
    Map(Trim, Split(raw, ','))
  }

  /** One tag per comma-separated piece, each trimmed and free of commas. */
  lemma ParseTagsShape(raw: string)
    ensures |ParseTags(raw)| == Occurrences(raw, ',') + 1
    ensures forall k :: 0 <= k < |ParseTags(raw)| ==>
      ParseTags(raw)[k] == Trim(Split(raw, ',')[k]) && IsTrimmed(ParseTags(raw)[k]) && ',' !in ParseTags(raw)[k]
  {
    var pieces := Split(raw, ',');
    forall k | 0 <= k < |pieces|
      ensures ',' !in Trim(pieces[k])
    {
      TrimInside(pieces[k]);
    }
  }

  /** What `trim` leaves is a piece of the input, so it adds no characters. */
  lemma TrimInside(s: string)
    ensures forall c :: c in Trim(s) ==> c in s
  {
    var t := TrimStart(s);
    assert forall c :: c in t ==> c in s by { assert t == s[|s| - |t|..]; }
    var r := TrimEnd(t);
    assert forall c :: c in r ==> c in t by { assert r == t[..|r|]; }
  }

  /** The value the tags input shows: `tags.join(', ')`. */
  function RenderTags(tags: seq<string>): string {
    Join(tags, ", ")
  }

  /** A comma-free text parses to its trimmed self. */
  lemma ParseSingle(a: string)
    requires ',' !in a
    ensures ParseTags(a) == [Trim(a)]
  {
    assert Split(a, ',') == [a];
  }

  /** The text before the first comma becomes the first tag. */
  lemma ParseCons(a: string, b: string)
    requires ',' !in a
    ensures ParseTags(a + [','] + b) == [Trim(a)] + ParseTags(b)
  {
    SplitAfter(a, ',', b);
    MapCons(Trim, a, Split(b, ','));
  }

  /** Splitting what follows some leading white space gives back the pieces joined. */
  lemma {:induction false} ParseJoined(w: string, tags: seq<string>)
    requires |tags| >= 1 && AllSpace(w) && ',' !in w
    requires forall k :: 0 <= k < |tags| ==> IsTrimmed(tags[k]) && ',' !in tags[k]
    ensures ParseTags(w + Join(tags, ", ")) == tags
    decreases |tags|
  {
    if |tags| == 1 {
      ParseJoinedSingle(w, tags[0]);
      assert w + Join(tags, ", ") == w + tags[0];
    } else {
      ParseJoined(" ", tags[1..]);
      ParseJoinedCons(w, tags);
    }
  }

  lemma ParseJoinedSingle(w: string, t: string)
    requires AllSpace(w) && ',' !in w && IsTrimmed(t) && ',' !in t
    ensures ParseTags(w + t) == [t]
  {
    HeadHasNoComma(w, t);
    TrimAfterSpace(w, t);
    ParseSingle(w + t);
  }

  lemma ParseJoinedCons(w: string, tags: seq<string>)
    requires |tags| >= 2 && AllSpace(w) && ',' !in w && IsTrimmed(tags[0]) && ',' !in tags[0]
    requires ParseTags(" " + Join(tags[1..], ", ")) == tags[1..]
    ensures ParseTags(w + Join(tags, ", ")) == tags
  {
    var head := w + tags[0];
    var tail := " " + Join(tags[1..], ", ");
    HeadHasNoComma(w, tags[0]);
    TrimAfterSpace(w, tags[0]);
    JoinCons(w, tags);
    assert w + Join(tags, ", ") == head + [','] + tail;
    ParseCons(head, tail);
    assert ParseTags(head + [','] + tail) == [tags[0]] + tags[1..];
    assert tags == [tags[0]] + tags[1..];
  }

  lemma HeadHasNoComma(w: string, t: string)
    requires ',' !in w && ',' !in t
    ensures ',' !in w + t
  {
  }

  lemma JoinCons(w: string, tags: seq<string>)
    requires |tags| >= 2
    ensures w + Join(tags, ", ") == (w + tags[0]) + [','] + (" " + Join(tags[1..], ", "))
  {
    var j := Join(tags[1..], ", ");
    assert Join(tags, ", ") == tags[0] + ", " + j;
    assert ", " == [','] + " ";
  }

  /** Rendering a non-empty list of trimmed, comma-free tags and parsing it back gives the list. */
  lemma TagsRoundTrip(tags: seq<string>)
    requires |tags| >= 1
    requires forall k :: 0 <= k < |tags| ==> IsTrimmed(tags[k]) && ',' !in tags[k]
    ensures ParseTags(RenderTags(tags)) == tags
  {
    assert "" + Join(tags, ", ") == Join(tags, ", ");
    ParseJoined("", tags);
  }

  /** No tags render as the empty string, which parses to one empty tag. */
  lemma EmptyTagsRoundTrip()
    ensures RenderTags([]) == ""
    ensures ParseTags("") == [""]
  {
    assert Split("", ',') == [""];
  }

  // ---------------------------------------------------------------- the form

  class ProductForm {
    var step: int
    var errors: map<Field, string>
    var formData: Draft

    /** The step is one of the three, and every step before the current one accepts the draft. */
    ghost predicate Valid()
      reads this
    {
      1 <= step <= 3 && forall j :: 1 <= j < step ==> StepAccepts(j, formData)
    }

    /** The initial state, hydrated from `initialData` when editing (hydration does not move the step). */
    constructor (initialData: Option<Draft>)
      ensures Valid()
      ensures step == 1 && errors == map[] && formData == initialData.GetOr(EmptyDraft)
    {
      step := 1;
      errors := map[];
      formData := initialData.GetOr(EmptyDraft);
    }

    /**
     * The `useEffect` that copies `initialData` into the draft again whenever it changes (a refetch
     * while editing). The step stays where it is, so the invariant survives exactly when every step
     * before the current one accepts the new draft; at step 1 it always does.
     */
    method Rehydrate(initialData: Option<Draft>)
      requires Valid()
      modifies this
      ensures step == old(step) && errors == old(errors)
      ensures formData == if initialData.Some? then initialData.value else old(formData)
      ensures Valid() <==> forall j :: 1 <= j < step ==> StepAccepts(j, formData)
      ensures step == 1 || initialData.None? ==> Valid()
    {
      if initialData.Some? {
        formData := initialData.value;
      }
    }

    /**
     * `handleChange` for a text or number input shown on the current step: updates that field only,
     * and removes that field's error alone.
     */
    method HandleChange(f: Field, c: Control)
      requires Valid() && Routed(f, c) && StepOf(f) == step
      modifies this
      ensures Valid() && step == old(step)
      ensures formData == Assign(old(formData), f, c)
      ensures errors == old(errors) - {f}
    {
      forall j | 1 <= j < step ensures StepAccepts(j, Assign(formData, f, c)) {
        assert StepAccepts(j, formData);
        AssignKeepsOtherSteps(formData, f, c, j);
      }
      formData := Assign(formData, f, c);
      if f in errors {
        var newErrors := errors;
        newErrors := newErrors - {f};
        errors := newErrors;
      }
    }

    /** `handleTagsChange` (step 1): the raw text replaces the tags; errors untouched. */
    method HandleTagsChange(raw: string)
      requires Valid() && step == 1
      modifies this
      ensures Valid() && step == old(step) && errors == old(errors)
      ensures formData == old(formData).(tags := ParseTags(raw))
    {
      var tags := ParseTags(raw);
      formData := formData.(tags := tags);
    }

    /**
     * The image uploader's `onChange`: replaces the image list; the `images` error is not cleared.
     * Any step can receive it, since an upload started at step 3 may settle after Back was pressed.
     */
    method SetImages(urls: seq<string>)
      requires Valid()
      modifies this
      ensures Valid() && step == old(step) && errors == old(errors)
      ensures formData == old(formData).(images := urls)
    {
      forall j | 1 <= j < step ensures StepAccepts(j, formData.(images := urls)) {
        assert StepAccepts(j, formData);
        assert BasicSlice(formData.(images := urls)) == BasicSlice(formData);
        assert PricingSlice(formData.(images := urls)) == PricingSlice(formData);
      }
      formData := formData.(images := urls);
    }

    /** The active checkbox (step 3): its own setter, which leaves errors alone. */
    method SetActive(checked: bool)
      requires Valid() && step == 3
      modifies this
      ensures Valid() && step == old(step) && errors == old(errors)
      ensures formData == old(formData).(isActive := checked)
    {
      forall j | 1 <= j < step ensures StepAccepts(j, formData.(isActive := checked)) {
        assert StepAccepts(j, formData);
        assert BasicSlice(formData.(isActive := checked)) == BasicSlice(formData);
        assert PricingSlice(formData.(isActive := checked)) == PricingSlice(formData);
      }
      formData := formData.(isActive := checked);
    }

    /**
     * `validateStep`: clears the errors, parses the slice of step `k`, and on failure stores each
     * issue under its field. True exactly when the step's schema accepts the draft.
     */
    method ValidateStep(k: int) returns (ok: bool)
      modifies this
      ensures ok <==> StepAccepts(k, formData)
      ensures errors == ErrorMap(StepIssues(k, formData))
      ensures formData == old(formData) && step == old(step)
    {
      errors := map[];
      var issues := StepIssues(k, formData);
      if issues == [] {
        return true;
      }
      var newErrors: map<Field, string> := map[];
      var i := 0;
      while i < |issues|
        invariant 0 <= i <= |issues|
        invariant newErrors == ErrorMap(issues[..i])
      {
        assert issues[..i + 1][..i] == issues[..i];
        newErrors := newErrors[issues[i].path := issues[i].message];
        i := i + 1;
      }
      assert issues[..i] == issues;
      errors := newErrors;
      return false;
    }

    /** `handleNext` (the Next button, shown before step 3): advances by one exactly when the step validates. */
    method HandleNext() returns (advanced: bool)
      requires Valid() && step < 3
      modifies this
      ensures Valid() && formData == old(formData)
      ensures advanced <==> StepAccepts(old(step), formData)
      ensures advanced ==> step == old(step) + 1 && errors == map[]
      ensures !advanced ==> step == old(step) && errors == ErrorMap(StepIssues(step, formData))
    {
      advanced := ValidateStep(step);
      if advanced {
        step := step + 1;
      }
    }

    /** `handleBack` (the Back button, shown after step 1): one step back, nothing else changes. */
    method HandleBack()
      requires Valid() && step > 1
      modifies this
      ensures Valid()
      ensures step == old(step) - 1 && formData == old(formData) && errors == old(errors)
    {
      step := step - 1;
    }

    /**
     * `handleSubmit`: re-validates the current step and hands the draft to the save request only
     * then. At step 3 a submitted draft passes the merged schema.
     */
    method HandleSubmit() returns (submitted: Option<Draft>)
      requires Valid()
      modifies this
      ensures Valid() && step == old(step) && formData == old(formData)
      ensures submitted.Some? <==> StepAccepts(step, formData)
      ensures submitted.Some? ==> submitted.value == formData && errors == map[]
      ensures submitted.None? ==> errors == ErrorMap(StepIssues(step, formData))
      ensures submitted.Some? ==> forall j :: 1 <= j <= step ==> StepAccepts(j, formData)
      ensures submitted.Some? && step == 3 ==> ParseProduct(FormOf(formData)).Ok?
    {
      var ok := ValidateStep(step);
      if ok {
        submitted := Some(formData);
        if step == 3 {
          AllStepsAcceptMeansProductAccepts(formData);
        }
      } else {
        submitted := None;
      }
    }
  }

  /** As written, the create route cannot store a submitted draft: the merged schema strips its cost. */
  lemma SubmittedDraftIsNotStored(d: Draft)
    requires StepAccepts(1, d) && StepAccepts(2, d) && StepAccepts(3, d)
    ensures ProductModel.Create(StorageInput(ParseProduct(FormOf(d)).value)).None?
  {
    ParsedRecordIsNeverStored(FormOf(d));
  }

  /**
   * With the corrected schema a submitted draft is stored, given a cost at least 0 and text
   * fields that are not blank.
   */
  lemma SubmittedDraftIsStored(d: Draft)
    requires StepAccepts(1, d) && StepAccepts(2, d) && StepAccepts(3, d)
    requires d.cost >= 0.0
    requires !AllSpace(d.name) && !AllSpace(d.description) && !AllSpace(d.category) && !AllSpace(d.sku)
    ensures ProductModel.Create(StorableStorageInput(
      ParseStorable(StorableInput(FormOf(d), Num(d.cost), Some(d.tags))).value)).Some?
  {
    var i := StorableInput(FormOf(d), Num(d.cost), Some(d.tags));
    assert ParseProduct(FormOf(d)).Ok?;
    StorableRecordIsStored(i);
  }
}

/**
 * The administrator account document (models/Admin.ts): email trimmed, lower-cased and matched
 * against `^\S+@\S+\.\S+$`, a password of at least six characters, a required trimmed name, a role
 * from a two-value enumeration defaulting to `admin`, and `isActive` defaulting to true.
 */
module AdminModel {
  import opened Wrappers
  import opened Text

  datatype Role = AdminRole | SuperAdminRole

  /** A stored administrator, without database id and timestamps. */
  datatype Admin = Admin(email: string, password: string, name: string, role: Role, isActive: bool)

  /** A document as handed to `Admin.create`: a field left out is `None`. */
  datatype AdminInput = AdminInput(
    email: Option<string>, password: Option<string>, name: Option<string>,
    role: Option<string>, isActive: Option<bool>)

  const MinPasswordLength: nat := 6

  /** The regular language of `^\S+@\S+\.\S+$`: three runs of non-space text joined by `@` and `.`. */
  ghost predicate MatchesEmailPattern(s: string) {
    exists a: string, b: string, c: string {:trigger a + "@" + b + "." + c} ::
      && s == a + "@" + b + "." + c
      && a != [] && b != [] && c != []
      && NoSpace(a) && NoSpace(b) && NoSpace(c)
  }

  /** Decides the pattern by positions: no space anywhere, an `@` after the first character and a `.` after it, both clear of the ends. */
  predicate IsEmail(s: string) {
    NoSpace(s) && exists i, j :: 0 < i && i + 1 < j < |s| - 1 && s[i] == '@' && s[j] == '.'
  }

  /** The position test decides exactly the language of the pattern. */
  lemma IsEmailMatchesPattern(s: string)
    ensures IsEmail(s) <==> MatchesEmailPattern(s)
  {
    if IsEmail(s) {
      IsEmailSplits(s);
    }
    if MatchesEmailPattern(s) {
      var a: string, b: string, c: string :|
        && s == a + "@" + b + "." + c
        && a != [] && b != [] && c != []
        && NoSpace(a) && NoSpace(b) && NoSpace(c);
      JoinedIsEmail(a, b, c);
    }
  }

  lemma IsEmailSplits(s: string)
    requires IsEmail(s)
    ensures MatchesEmailPattern(s)
  {
    var i, j :| 0 < i && i + 1 < j < |s| - 1 && s[i] == '@' && s[j] == '.';
    var a, b, c := s[..i], s[i + 1..j], s[j + 1..];
    assert s == a + "@" + b + "." + c;
    assert NoSpace(a) && NoSpace(b) && NoSpace(c) by {
      assert forall k :: 0 <= k < |a| ==> a[k] == s[k];
      assert forall k :: 0 <= k < |b| ==> b[k] == s[i + 1 + k];
      assert forall k :: 0 <= k < |c| ==> c[k] == s[j + 1 + k];
    }
  }

  lemma JoinedIsEmail(a: string, b: string, c: string)
    requires a != [] && b != [] && c != [] && NoSpace(a) && NoSpace(b) && NoSpace(c)
    ensures IsEmail(a + "@" + b + "." + c)
  {
    var s := a + "@" + b + "." + c;
    var i, j := |a|, |a| + 1 + |b|;
    assert s[i] == '@' && s[j] == '.';
    forall k | 0 <= k < |s| ensures !IsSpace(s[k]) {
      if k < i { assert s[k] == a[k]; }
      else if i < k < j { assert s[k] == b[k - i - 1]; }
      else if j < k { assert s[k] == c[k - j - 1]; }
    }
  }

  /** The stored email: the `trim` and `lowercase` setters. */
  function NormalizeEmail(e: string): string {
    Lower(Trim(e))
  }

  /** The `role` enumeration with its default. */
  function ParseRole(r: Option<string>): (role: Option<Role>)
    ensures role.Some? <==> r.None? || r.value == "admin" || r.value == "super-admin"
    ensures r.None? ==> role == Some(AdminRole)
    ensures r == Some("admin") ==> role == Some(AdminRole)
    ensures r == Some("super-admin") ==> role == Some(SuperAdminRole)
  {
    match r
    case None => Some(AdminRole)
    case Some(s) =>
      if s == "admin" then Some(AdminRole)
      else if s == "super-admin" then Some(SuperAdminRole)
      else None
  }

  /** Every constraint of the schema holds of a stored administrator. */
  predicate Valid(a: Admin) {
    && IsEmail(a.email) && a.email == Lower(a.email) && IsTrimmed(a.email)
    && |a.password| >= MinPasswordLength
    && IsTrimmed(a.name) && a.name != []
  }

  /** `Admin.create`: the stored administrator, or `None` when validation fails. */
  function Create(i: AdminInput): (r: Option<Admin>)
    ensures r.Some? <==>
      && i.email.Some? && MatchesEmailPattern(NormalizeEmail(i.email.value))
      && i.password.Some? && |i.password.value| >= MinPasswordLength
      && i.name.Some? && !AllSpace(i.name.value)
      && (i.role.None? || i.role.value == "admin" || i.role.value == "super-admin")
    ensures r.Some? ==>
      && r.value.email == NormalizeEmail(i.email.value)
      && r.value.password == i.password.value
      && r.value.name == Trim(i.name.value)
      && r.value.role == ParseRole(i.role).value
      && r.value.isActive == i.isActive.GetOr(true)
  {
    EmailDecided(i.email);
    if i.email.Some? && IsEmail(NormalizeEmail(i.email.value))
       && i.password.Some? && |i.password.value| >= MinPasswordLength
       && i.name.Some? && Trim(i.name.value) != []
       && ParseRole(i.role).Some?
    then Some(Admin(NormalizeEmail(i.email.value), i.password.value, Trim(i.name.value),
                    ParseRole(i.role).value, i.isActive.GetOr(true)))
    else None
  }

  lemma EmailDecided(e: Option<string>)
    ensures e.Some? ==> (IsEmail(NormalizeEmail(e.value)) <==> MatchesEmailPattern(NormalizeEmail(e.value)))
  {
    if e.Some? {
      IsEmailMatchesPattern(NormalizeEmail(e.value));
    }
  }

  /** A stored administrator satisfies the schema's constraints. */
  lemma CreatedIsValid(i: AdminInput)
    requires Create(i).Some?
    ensures Valid(Create(i).value)
  {
    var a := Create(i).value;
    EmailDecided(i.email);
    assert IsEmail(a.email);
    LowerKeepsTrimmed(Trim(i.email.value));
    LowerIdempotent(Trim(i.email.value));
  }

  /** The seeded administrator's address matches the pattern. */
  lemma SeedEmailAccepted()
    ensures MatchesEmailPattern("admin@example.com")
  {
    var a, b, c := "admin", "example", "com";
    assert "admin@example.com" == a + "@" + b + "." + c;
  }

  /** Padding around an address is dropped and the rest lower-cased, however often it is normalised. */
  lemma NormalizeStripsPadding(w1: string, e: string, w2: string)
    requires AllSpace(w1) && AllSpace(w2) && IsTrimmed(e)
    ensures NormalizeEmail(w1 + e + w2) == Lower(e)
    ensures NormalizeEmail(NormalizeEmail(w1 + e + w2)) == Lower(e)
  {
    TrimPadded(w1, e, w2);
    LowerKeepsTrimmed(e);
    TrimOfTrimmed(Lower(e));
    LowerIdempotent(e);
  }

  /** A domain without a dot, or nothing before the `@`, is refused. */
  lemma EmailRejections()
    ensures !MatchesEmailPattern("admin@example")
    ensures !MatchesEmailPattern("@example.com")
  {
    var s, t := "admin@example", "@example.com";
    assert forall k :: 0 <= k < |s| ==> s[k] != '.';
    assert forall k :: 0 < k < |t| ==> t[k] != '@';
    IsEmailMatchesPattern(s);
    IsEmailMatchesPattern(t);
  }

  /** The stored administrators, with `email` unique (the schema's `unique` index). */
  predicate UniqueEmails(admins: seq<Admin>) {
    forall i, j :: 0 <= i < j < |admins| ==> admins[i].email != admins[j].email
  }

  /** The emails in use. */
  function Emails(admins: seq<Admin>): set<string> {
    set i | 0 <= i < |admins| :: admins[i].email
  }

  /**
   * A new administrator joins, keeping emails unique, exactly when the normalised form of the given
   * address is not in use: the index compares stored values, after `trim` and `lowercase`.
   */
  lemma InsertAdmin(admins: seq<Admin>, i: AdminInput)
    requires UniqueEmails(admins) && Create(i).Some?
    ensures UniqueEmails(admins + [Create(i).value]) <==> NormalizeEmail(i.email.value) !in Emails(admins)
  {
    var a := Create(i).value;
    var bs := admins + [a];
    if a.email in Emails(admins) {
      var k :| 0 <= k < |admins| && admins[k].email == a.email;
      assert bs[k].email == bs[|admins|].email;
    } else {
      forall x, y | 0 <= x < y < |bs| ensures bs[x].email != bs[y].email {
        if y == |admins| {
          assert bs[x] == admins[x];
          assert admins[x].email in Emails(admins);
        }
      }
    }
  }

  /** Two addresses that differ only in padding and case collide on the index. */
  lemma PaddedEmailCollides(admins: seq<Admin>, i: AdminInput, w: string)
    requires UniqueEmails(admins) && |admins| > 0 && AllSpace(w)
    requires IsTrimmed(admins[0].email) && admins[0].email == Lower(admins[0].email)
    requires i.email == Some(w + admins[0].email) && Create(i).Some?
    ensures !UniqueEmails(admins + [Create(i).value])
  {
    TrimPadded(w, admins[0].email, "");
    assert w + admins[0].email + "" == w + admins[0].email;
    assert admins[0].email in Emails(admins);
    InsertAdmin(admins, i);
  }
}

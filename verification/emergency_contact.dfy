/**
 * The emergency-contact document: its field validators (the phone and email
 * patterns, the relation enum), its defaults, and the pre-save hook that keeps
 * a single primary contact per user. The collection is a sequence of stored
 * documents; the two regular expressions are given both as the languages they
 * denote and as the scanners that decide them.
 */
module EmergencyContact {
  import opened Wrappers
  import Text

  // ----- The phone pattern `^\+?1?\d{9,15}$` -----

  /** `s` is `prefix` followed by 9 to 15 digits. */
  predicate DigitsAfter(s: string, prefix: string) {
    |prefix| <= |s| && s[..|prefix|] == prefix && Text.AllDigits(s[|prefix|..]) && 9 <= |s| - |prefix| <= 15
  }

  /** The language of the phone pattern: an optional `+`, an optional `1`, then 9 to 15 digits. */
  predicate PhonePattern(s: string) {
    DigitsAfter(s, "") || DigitsAfter(s, "+") || DigitsAfter(s, "1") || DigitsAfter(s, "+1")
  }

  /**
   * A one-pass decision of the phone pattern: after an optional `+`, 9 to 16
   * digits, where sixteen are allowed only when the first is the optional `1`.
   */
  predicate ValidPhone(s: string) {
    var digits := if |s| > 0 && s[0] == '+' then s[1..] else s;
    Text.AllDigits(digits) && 9 <= |digits| <= 16 && (|digits| == 16 ==> digits[0] == '1')
  }

  /** The scanner accepts exactly the phone pattern's language. */
  lemma PhoneIff(s: string)
    ensures ValidPhone(s) <==> PhonePattern(s)
  {
    var plus := |s| > 0 && s[0] == '+';
    var digits := if plus then s[1..] else s;
    if ValidPhone(s) {
      if |digits| <= 15 {
        if plus {
          assert s[..1] == "+" && s[1..] == digits;
          assert DigitsAfter(s, "+");
        } else {
          assert s[..0] == "" && s[0..] == s;
          assert DigitsAfter(s, "");
        }
      } else if plus {
        assert s[..2] == "+1" by { assert s[1] == digits[0]; }
        assert s[2..] == digits[1..];
        assert DigitsAfter(s, "+1");
      } else {
        assert s[..1] == "1";
        assert s[1..] == digits[1..];
        assert DigitsAfter(s, "1");
      }
    }
    if PhonePattern(s) {
      if DigitsAfter(s, "") {
        assert s[0..] == s;
        assert Text.IsDigit(s[0]);
      } else if DigitsAfter(s, "+") {
        assert s[..1] == "+";
      } else if DigitsAfter(s, "1") {
        assert s[..1] == "1";
        assert s[0] == '1';
        assert digits == s;
        assert forall k :: 1 <= k < |s| ==> s[k] == s[1..][k - 1];
      } else {
        assert s[..2] == "+1";
        assert s[0] == '+' && s[1] == '1';
        assert digits == s[1..];
        assert forall k :: 1 <= k < |digits| ==> digits[k] == s[2..][k - 1];
      }
    }
  }

  // ----- The email pattern `^[^\s@]+@[^\s@]+\.[^\s@]+$` -----

  /** No `@` and no white space: the character class `[^\s@]`. */
  predicate NoAtOrSpace(x: string) {
    forall k :: 0 <= k < |x| ==> x[k] != '@' && !Text.IsSpace(x[k])
  }

  /** The language of the email pattern: a local part, `@`, a domain label, `.`, and the rest, none of them empty. */
  predicate EmailPattern(s: string) {
    exists i, j :: 0 < i && i + 1 < j < |s| - 1 && s[i] == '@' && s[j] == '.' &&
      NoAtOrSpace(s[..i]) && NoAtOrSpace(s[i + 1..j]) && NoAtOrSpace(s[j + 1..])
  }

  /**
   * A direct decision of the email pattern: the text before the first `@` is
   * non-empty, neither side of it holds another `@` or white space, and the
   * domain has a `.` with at least one character on each side.
   */
  predicate ValidEmail(s: string) {
    match Text.IndexOf(s, "@")
    case None => false
    case Some(i) =>
      var domain := s[i + 1..];
      i > 0 && NoAtOrSpace(s[..i]) && NoAtOrSpace(domain) && |domain| >= 3 && Text.Contains(domain[1..|domain| - 1], ".")
  }

  lemma OccursAtChar(s: string, c: char, j: int)
    ensures Text.OccursAt(s, [c], j) <==> 0 <= j < |s| && s[j] == c
  {
    if 0 <= j < |s| {
      assert s[j..j + 1] == [s[j]];
    }
  }

  /** With no `@` before position `i` and one at it, `indexOf("@")` is `i`. */
  lemma FirstAt(s: string, i: nat)
    requires i < |s| && s[i] == '@' && forall k :: 0 <= k < i ==> s[k] != '@'
    ensures Text.IndexOf(s, "@") == Some(i)
  {
    OccursAtChar(s, '@', i);
    var r := Text.IndexOf(s, "@");
    assert r.Some?;
    OccursAtChar(s, '@', r.value);
    assert r.value <= i;
  }

  /** Whatever the scanner accepts is in the email pattern's language. */
  lemma EmailSound(s: string)
    requires ValidEmail(s)
    ensures EmailPattern(s)
  {
    var i := Text.IndexOf(s, "@").value;
    OccursAtChar(s, '@', i);
    var domain := s[i + 1..];
    assert i > 0 && |domain| >= 3 && NoAtOrSpace(s[..i]) && NoAtOrSpace(domain);
    var mid := domain[1..|domain| - 1];
    assert |mid| == |domain| - 2;
    Text.ContainsIff(mid, ".");
    var m :| Text.OccursAt(mid, ".", m);
    OccursAtChar(mid, '.', m);
    var j := i + 2 + m;
    assert 0 <= m < |mid|;
    assert mid[m] == domain[1 + m];
    assert domain[1 + m] == s[j];
    var host, rest := s[i + 1..j], s[j + 1..];
    forall k | 0 <= k < |host| ensures host[k] != '@' && !Text.IsSpace(host[k]) {
      assert host[k] == domain[k];
    }
    forall k | 0 <= k < |rest| ensures rest[k] != '@' && !Text.IsSpace(rest[k]) {
      assert rest[k] == domain[m + 2 + k];
    }
    assert 0 < i && i + 1 < j < |s| - 1 && s[i] == '@' && s[j] == '.' &&
      NoAtOrSpace(s[..i]) && NoAtOrSpace(host) && NoAtOrSpace(rest);
  }

  /** Everything in the email pattern's language is accepted by the scanner. */
  lemma EmailComplete(s: string, i: int, j: int)
    requires 0 < i && i + 1 < j < |s| - 1 && s[i] == '@' && s[j] == '.'
    requires NoAtOrSpace(s[..i]) && NoAtOrSpace(s[i + 1..j]) && NoAtOrSpace(s[j + 1..])
    ensures ValidEmail(s)
  {
    assert forall k :: 0 <= k < i ==> s[k] == s[..i][k];
    FirstAt(s, i);
    var domain := s[i + 1..];
    forall k | 0 <= k < |domain| ensures domain[k] != '@' && !Text.IsSpace(domain[k]) {
      if i + 1 + k < j {
        assert domain[k] == s[i + 1..j][k];
      } else if i + 1 + k > j {
        assert domain[k] == s[j + 1..][i + k - j];
      }
    }
    var mid := domain[1..|domain| - 1];
    var m := j - i - 2;
    assert mid[m] == s[j];
    OccursAtChar(mid, '.', m);
    Text.ContainsIff(mid, ".");
  }

  /** The scanner accepts exactly the email pattern's language. */
  lemma EmailIff(s: string)
    ensures ValidEmail(s) <==> EmailPattern(s)
  {
    if ValidEmail(s) {
      EmailSound(s);
    }
    if EmailPattern(s) {
      var i, j :| 0 < i && i + 1 < j < |s| - 1 && s[i] == '@' && s[j] == '.' &&
        NoAtOrSpace(s[..i]) && NoAtOrSpace(s[i + 1..j]) && NoAtOrSpace(s[j + 1..]);
      EmailComplete(s, i, j);
    }
  }

  // ----- The document -----

  /** The values the schema's `relation` enum admits. */
  datatype Relation = Parent | Sibling | Friend | Spouse | Other

  /** The stored text of a relation. */
  function RelationName(r: Relation): string {
    match r
    case Parent => "parent"
    case Sibling => "sibling"
    case Friend => "friend"
    case Spouse => "spouse"
    case Other => "other"
  }

  /** The enum check: a text is admitted iff it names a relation, and then it names exactly that one. */
  function ParseRelation(s: string): (r: Option<Relation>)
    ensures r.Some? ==> RelationName(r.value) == s
    ensures r.None? ==> forall x: Relation :: RelationName(x) != s
  {
    if s == "parent" then Some(Parent)
    else if s == "sibling" then Some(Sibling)
    else if s == "friend" then Some(Friend)
    else if s == "spouse" then Some(Spouse)
    else if s == "other" then Some(Other)
    else None
  }

  /** Every relation's text is admitted and read back as that relation. */
  lemma RelationRoundTrip(r: Relation)
    ensures ParseRelation(RelationName(r)) == Some(r)
  {
  }

  /** A stored contact. */
  datatype Contact = Contact(
    id: string, userId: string, name: string, phone: string, email: Option<string>,
    relation: Relation, isPrimary: bool, isVerified: bool)

  /** The fields of a document about to be saved; an absent one is `undefined`. */
  datatype ContactInput = ContactInput(
    id: string, userId: Option<string>, name: Option<string>, phone: Option<string>, email: Option<string>,
    relation: Option<string>, isPrimary: Option<bool>, isVerified: Option<bool>)

  /** The schema's validation failures. */
  datatype FieldError = UserRequired | NameRequired | PhoneRequired | PhoneFormat | EmailFormat | RelationEnum

  /** A string field holds something: present and, for the required check, non-empty. */
  predicate Filled(v: Option<string>) {
    v.Some? && v.value != ""
  }

  /**
   * The validation of a document: every failing validator contributes its
   * error. The name is trimmed before the required check; the match
   * validators skip an absent or empty value; an absent relation takes the
   * default and is not checked.
   */
  function Validate(c: ContactInput): (errors: set<FieldError>)
    ensures UserRequired in errors <==> c.userId.None?
    ensures NameRequired in errors <==> c.name.None? || Text.AllSpace(c.name.value)
    ensures PhoneRequired in errors <==> !Filled(c.phone)
    ensures PhoneFormat in errors <==> Filled(c.phone) && !PhonePattern(c.phone.value)
    ensures EmailFormat in errors <==> Filled(c.email) && !EmailPattern(c.email.value)
    ensures RelationEnum in errors <==> c.relation.Some? && ParseRelation(c.relation.value).None?
  {
    ScannersDecidePatterns(c);
    set e <- AllErrors | Breaks(c, e)
  }

  const AllErrors: set<FieldError> := {UserRequired, NameRequired, PhoneRequired, PhoneFormat, EmailFormat, RelationEnum}

  /** Whether the validator behind error `e` refuses the input. */
  predicate Breaks(c: ContactInput, e: FieldError) {
    match e
    case UserRequired => c.userId.None?
    case NameRequired => c.name.None? || Text.Trim(c.name.value) == ""
    case PhoneRequired => !Filled(c.phone)
    case PhoneFormat => Filled(c.phone) && !ValidPhone(c.phone.value)
    case EmailFormat => Filled(c.email) && !ValidEmail(c.email.value)
    case RelationEnum => c.relation.Some? && ParseRelation(c.relation.value).None?
  }

  lemma ScannersDecidePatterns(c: ContactInput)
    ensures c.name.Some? ==> (Text.Trim(c.name.value) == "" <==> Text.AllSpace(c.name.value))
    ensures c.phone.Some? ==> (ValidPhone(c.phone.value) <==> PhonePattern(c.phone.value))
    ensures c.email.Some? ==> (ValidEmail(c.email.value) <==> EmailPattern(c.email.value))
  {
    if c.name.Some? { Text.TrimEmptyIff(c.name.value); }
    if c.phone.Some? { PhoneIff(c.phone.value); }
    if c.email.Some? { EmailIff(c.email.value); }
  }

  /** What every stored contact satisfies. */
  predicate Admissible(c: Contact) {
    c.name != "" && PhonePattern(c.phone) && (c.email.Some? && c.email.value != "" ==> EmailPattern(c.email.value))
  }

  /** The document a valid input becomes: the trimmed name and the schema defaults for what is absent. */
  function Build(c: ContactInput): (r: Contact)
    requires Validate(c) == {}
    ensures Admissible(r)
    ensures r.name == Text.Trim(c.name.value) && r.phone == c.phone.value && r.email == c.email
    ensures c.relation.None? ==> r.relation == Other
    ensures c.isPrimary.None? ==> !r.isPrimary
    ensures c.isVerified.None? ==> !r.isVerified
  {
    assert UserRequired !in Validate(c) && NameRequired !in Validate(c) && PhoneRequired !in Validate(c);
    assert PhoneFormat !in Validate(c) && EmailFormat !in Validate(c) && RelationEnum !in Validate(c);
    Text.TrimEmptyIff(c.name.value);
    var relation := if c.relation.Some? then ParseRelation(c.relation.value).value else Other;
    Contact(c.id, c.userId.value, Text.Trim(c.name.value), c.phone.value, c.email, relation,
            c.isPrimary.GetOr(false), c.isVerified.GetOr(false))
  }

  // ----- The collection and the pre-save hook -----

  predicate IdsUnique(s: seq<Contact>) {
    forall i, j :: 0 <= i < j < |s| ==> s[i].id != s[j].id
  }

  /** No user has two primary contacts. */
  predicate SinglePrimary(s: seq<Contact>) {
    forall i, j :: 0 <= i < |s| && 0 <= j < |s| && i != j && s[i].userId == s[j].userId && s[i].isPrimary ==> !s[j].isPrimary
  }

  predicate Wellformed(s: seq<Contact>) {
    IdsUnique(s) && SinglePrimary(s) && forall i :: 0 <= i < |s| ==> Admissible(s[i])
  }

  /** The hook's `updateMany`: every other contact of the user stops being primary. */
  function ClearOthers(s: seq<Contact>, userId: string, id: string): (r: seq<Contact>)
    ensures |r| == |s|
    ensures forall k :: 0 <= k < |s| ==>
              r[k] == (if s[k].userId == userId && s[k].id != id then s[k].(isPrimary := false) else s[k])
  {
    seq(|s|, k requires 0 <= k < |s| => if s[k].userId == userId && s[k].id != id then s[k].(isPrimary := false) else s[k])
  }

  /** The position of the document with the id, if it is stored. */
  function Position(s: seq<Contact>, id: string): (r: Option<nat>)
    ensures r.Some? ==> r.value < |s| && s[r.value].id == id
    ensures r.None? ==> forall k :: 0 <= k < |s| ==> s[k].id != id
    decreases |s|
  {
    if |s| == 0 then None
    else if s[|s| - 1].id == id then Some(|s| - 1)
    else Position(s[..|s| - 1], id)
  }

  /** Writing the document: it replaces the stored one with its id, or is inserted. */
  function Upsert(s: seq<Contact>, c: Contact): (r: seq<Contact>)
    ensures Position(s, c.id).Some? ==> r == s[Position(s, c.id).value := c]
    ensures Position(s, c.id).None? ==> r == s + [c]
  {
    match Position(s, c.id)
    case Some(k) => s[k := c]
    case None => s + [c]
  }

  /**
   * `save()`: validation first (a failure stores nothing); then the pre-save
   * hook, which for a primary contact clears `isPrimary` on every other
   * contact of the same user; then the write.
   */
  function Save(s: seq<Contact>, input: ContactInput): (r: (seq<Contact>, Result<Contact, set<FieldError>>))
    ensures Validate(input) != {} <==> r.1.Err?
    ensures r.1.Err? ==> r.0 == s && r.1.error == Validate(input)
    ensures r.1.Ok? ==> r.1.value == Build(input)
  {
    var errors := Validate(input);
    if errors != {} then (s, Err(errors))
    else
      var c := Build(input);
      var cleared := if c.isPrimary then ClearOthers(s, c.userId, c.id) else s;
      (Upsert(cleared, c), Ok(c))
  }

  /** The write keeps ids unique, stores the document, and leaves every other document in its place. */
  lemma UpsertFacts(t: seq<Contact>, c: Contact)
    requires IdsUnique(t)
    ensures var r := Upsert(t, c);
            IdsUnique(r) && c in r && |t| <= |r| &&
            (forall k :: 0 <= k < |t| && t[k].id != c.id ==> r[k] == t[k]) &&
            (forall k :: 0 <= k < |r| ==> r[k] == c || (k < |t| && r[k] == t[k] && t[k].id != c.id))
  {
    match Position(t, c.id)
    case Some(p) =>
      assert Upsert(t, c)[p] == c;
    case None =>
      assert Upsert(t, c)[|t|] == c;
  }

  /**
   * Clearing flags changes no id, so the ids stay unique; in a well-formed
   * collection it creates no primary contact and leaves the user's other
   * contacts without one.
   */
  lemma ClearOthersKeeps(s: seq<Contact>, userId: string, id: string)
    requires IdsUnique(s)
    ensures IdsUnique(ClearOthers(s, userId, id))
    ensures var t := ClearOthers(s, userId, id);
            Wellformed(s) ==> Wellformed(t) && forall k :: 0 <= k < |t| && t[k].userId == userId && t[k].id != id ==> !t[k].isPrimary
  {
    var t := ClearOthers(s, userId, id);
    assert forall k :: 0 <= k < |s| ==> t[k].id == s[k].id && t[k].userId == s[k].userId && (t[k].isPrimary ==> s[k].isPrimary);
    forall i, j | 0 <= i < j < |t| ensures t[i].id != t[j].id {
      assert t[i].id == s[i].id && t[j].id == s[j].id;
    }
  }

  /** Writing a document into a well-formed collection keeps it well-formed when no other contact of a primary document's user is primary. */
  lemma UpsertKeepsWellformed(t: seq<Contact>, c: Contact)
    requires Wellformed(t) && Admissible(c)
    requires c.isPrimary ==> forall k :: 0 <= k < |t| && t[k].userId == c.userId && t[k].id != c.id ==> !t[k].isPrimary
    ensures Wellformed(Upsert(t, c))
  {
    UpsertFacts(t, c);
    var r := Upsert(t, c);
    forall i, j | 0 <= i < |r| && 0 <= j < |r| && i != j && r[i].userId == r[j].userId && r[i].isPrimary
      ensures !r[j].isPrimary
    {
    }
  }

  /** The saved document is stored, the ids stay unique, and every other document keeps its place, losing at most its primary flag. */
  lemma SaveWrites(s: seq<Contact>, input: ContactInput)
    requires IdsUnique(s) && Save(s, input).1.Ok?
    ensures var (s', r) := Save(s, input);
            IdsUnique(s') && r.value in s' &&
            forall k :: 0 <= k < |s| && s[k].id != r.value.id ==>
              k < |s'| &&
              s'[k] == (if r.value.isPrimary && s[k].userId == r.value.userId then s[k].(isPrimary := false) else s[k])
  {
    var c := Build(input);
    var cleared := if c.isPrimary then ClearOthers(s, c.userId, c.id) else s;
    ClearOthersKeeps(s, c.userId, c.id);
    UpsertFacts(cleared, c);
    var r := Upsert(cleared, c);
    assert Save(s, input) == (r, Ok(c));
    forall k | 0 <= k < |s| && s[k].id != c.id
      ensures k < |r| && r[k] == (if c.isPrimary && s[k].userId == c.userId then s[k].(isPrimary := false) else s[k])
    {
      assert r[k] == cleared[k];
    }
  }

  /**
   * A non-primary save, or one for another user, leaves the other documents untouched;
   * after a primary contact is saved it is its user's only primary contact.
   */
  lemma SaveEffects(s: seq<Contact>, input: ContactInput, k: nat)
    requires IdsUnique(s) && Save(s, input).1.Ok?
    ensures k < |s| && s[k].id != Save(s, input).1.value.id &&
            (!Save(s, input).1.value.isPrimary || s[k].userId != Save(s, input).1.value.userId) ==>
              k < |Save(s, input).0| && Save(s, input).0[k] == s[k]
    ensures var (s', r) := Save(s, input);
            r.value.isPrimary ==> forall k :: 0 <= k < |s'| && s'[k].userId == r.value.userId && s'[k].isPrimary ==> s'[k] == r.value
  {
    SaveWrites(s, input);
    var c := Build(input);
    if c.isPrimary {
      var cleared := ClearOthers(s, c.userId, c.id);
      ClearOthersKeeps(s, c.userId, c.id);
      UpsertFacts(cleared, c);
      var r := Upsert(cleared, c);
      assert Save(s, input) == (r, Ok(c));
      forall k | 0 <= k < |r| && r[k] != c ensures !(r[k].userId == c.userId && r[k].isPrimary) {
        assert k < |cleared| && r[k] == cleared[k] && cleared[k].id != c.id;
      }
    }
  }

  /** Saving keeps the collection well-formed; in particular every user keeps at most one primary contact. */
  lemma SaveKeepsSinglePrimary(s: seq<Contact>, input: ContactInput)
    requires Wellformed(s)
    ensures Wellformed(Save(s, input).0)
  {
    if Save(s, input).1.Ok? {
      var c := Build(input);
      if c.isPrimary {
        ClearOthersKeeps(s, c.userId, c.id);
        UpsertKeepsWellformed(ClearOthers(s, c.userId, c.id), c);
      } else {
        UpsertKeepsWellformed(s, c);
      }
    }
  }
}

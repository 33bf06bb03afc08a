/**
 * The SOS SMS endpoint: the message text built from the payload, the
 * request validation, the "not configured" mode, and the per-contact
 * summary with its 200/207/502 status. The SMS provider is replaced by how
 * each contact's send settles.
 */
module SosAlerts {
  import opened Wrappers
  import Text

  datatype Contact = Contact(name: string, phone: string, relation: Option<string>)
  datatype Location = Location(latitude: Option<real>, longitude: Option<real>, url: Option<string>)
  datatype UserInfo = UserInfo(name: Option<string>, phone: Option<string>, bloodGroup: Option<string>,
                               allergies: Option<string>, medications: Option<string>)

  /** The request body; `contacts` is `None` when it is missing or not an array. */
  datatype SosPayload = SosPayload(
    contacts: Option<seq<Contact>>, location: Option<Location>, user: Option<UserInfo>,
    reason: Option<string>, triggeredAt: Option<string>, evidenceUrl: Option<string>)

  /** A string field that JavaScript treats as true: present and non-empty. */
  predicate Given(s: Option<string>) {
    s.Some? && s.value != ""
  }

  /** A number that JavaScript treats as true: present and not zero. */
  predicate NonZero(x: Option<real>) {
    x.Some? && x.value != 0.0
  }

  /** What a line of the message is about; each has its own fixed opening text. */
  datatype Caption = Banner | Reason | Name | Phone | BloodGroup | Allergies | Medications
                   | MapLink | Coords | Evidence | Time | Closing

  function CaptionText(c: Caption): string {
    match c
    case Banner => Header
    case Reason => "Reason: "
    case Name => "Name: "
    case Phone => "Phone: "
    case BloodGroup => "Blood Group: "
    case Allergies => "Allergies: "
    case Medications => "Medications: "
    case MapLink => "Location: "
    case Coords => "Coords: "
    case Evidence => "Evidence: "
    case Time => "Time: "
    case Closing => Footer
  }

  /** One line of the message: its caption and what follows it. */
  datatype Line = Line(caption: Caption, value: string)

  const Header: string := "\U{1F6A8} SOS ALERT \U{1F6A8}"
  const Footer: string := "Reply or call back if you received this."
  const DefaultReason: string := "Emergency SOS triggered"

  /** The field of the user record that a caption reports; `None` for the captions that are not about the user. */
  function UserValue(u: UserInfo, c: Caption): Option<string> {
    match c
    case Name => u.name
    case Phone => u.phone
    case BloodGroup => u.bloodGroup
    case Allergies => u.allergies
    case Medications => u.medications
    case _ => None
  }

  /** `user?.<field>`: `None` also when there is no user. */
  function UserField(p: SosPayload, c: Caption): Option<string> {
    if p.user.Some? then UserValue(p.user.value, c) else None
  }

  function LocationUrl(p: SosPayload): Option<string> {
    if p.location.Some? then p.location.value.url else None
  }

  predicate HasCoords(p: SosPayload) {
    p.location.Some? && NonZero(p.location.value.latitude) && NonZero(p.location.value.longitude)
  }

  /** The entry for an optional field: `null` unless the field is given. */
  function Optional(c: Caption, v: Option<string>): (r: Option<Line>)
    ensures r.Some? <==> Given(v)
    ensures r.Some? ==> r.value == Line(c, v.value)
  {
    if Given(v) then Some(Line(c, v.value)) else None
  }

  /**
   * The entry with caption `c` in the array of `buildMessage`, before
   * `filter(Boolean)`; `None` stands for `null`. `num` prints a number.
   */
  function Entry(p: SosPayload, nowIso: string, num: real -> string, c: Caption): (r: Option<Line>)
    ensures r.Some? ==> r.value.caption == c
    ensures c in {Banner, Reason, Time, Closing} ==> r.Some?
  {
    match c
    case Banner => Some(Line(Banner, ""))
    case Reason => Some(Line(Reason, if Given(p.reason) then p.reason.value else DefaultReason))
    case Name => Optional(Name, UserField(p, Name))
    case Phone => Optional(Phone, UserField(p, Phone))
    case BloodGroup => Optional(BloodGroup, UserField(p, BloodGroup))
    case Allergies => Optional(Allergies, UserField(p, Allergies))
    case Medications => Optional(Medications, UserField(p, Medications))
    case MapLink => Optional(MapLink, LocationUrl(p))
    case Coords =>
      if HasCoords(p)
      then Some(Line(Coords, num(p.location.value.latitude.value) + ", " + num(p.location.value.longitude.value)))
      else None
    case Evidence => Optional(Evidence, p.evidenceUrl)
    case Time => Some(Line(Time, if Given(p.triggeredAt) then p.triggeredAt.value else nowIso))
    case Closing => Some(Line(Closing, ""))
  }

  /** The caption of each of the twelve entries, in the order of the array. */
  const Order: seq<Caption> := [Banner, Reason, Name, Phone, BloodGroup, Allergies, Medications, MapLink, Coords, Evidence, Time, Closing]

  /** The position of a caption's entry in the array. */
  function Rank(c: Caption): (i: nat)
    ensures i < |Order| && Order[i] == c
  {
    match c
    case Banner => 0
    case Reason => 1
    case Name => 2
    case Phone => 3
    case BloodGroup => 4
    case Allergies => 5
    case Medications => 6
    case MapLink => 7
    case Coords => 8
    case Evidence => 9
    case Time => 10
    case Closing => 11
  }

  /** The array of `buildMessage` before `filter(Boolean)`: the twelve entries in order. */
  function Candidates(p: SosPayload, nowIso: string, num: real -> string): (cs: seq<Option<Line>>)
    ensures |cs| == |Order|
    ensures forall k :: 0 <= k < |Order| ==> cs[k] == Entry(p, nowIso, num, Order[k])
  {
    seq(|Order|, k requires 0 <= k < |Order| => Entry(p, nowIso, num, Order[k]))
  }

  /** `filter(Boolean)`: the present entries, in order. */
  function Present(cs: seq<Option<Line>>): (r: seq<Line>)
    ensures |r| <= |cs|
    ensures |cs| > 0 && cs[0].Some? ==> |r| > 0 && r[0] == cs[0].value
    ensures |cs| > 0 && cs[|cs| - 1].Some? ==> |r| > 0 && r[|r| - 1] == cs[|cs| - 1].value
    decreases |cs|
  {
    if |cs| == 0 then []
    else if cs[0].Some? then [cs[0].value] + Present(cs[1..])
    else Present(cs[1..])
  }

  predicate HasLine(lines: seq<Line>, c: Caption) {
    exists k :: 0 <= k < |lines| && lines[k].caption == c
  }

  predicate Offers(cs: seq<Option<Line>>, c: Caption) {
    exists k :: 0 <= k < |cs| && cs[k].Some? && cs[k].value.caption == c
  }

  /** Filtering keeps exactly the captions of the present entries. */
  lemma {:induction false} PresentKeepsCaptions(cs: seq<Option<Line>>, c: Caption)
    ensures HasLine(Present(cs), c) <==> Offers(cs, c)
    decreases |cs|
  {
    if |cs| > 0 {
      PresentKeepsCaptions(cs[1..], c);
      if Offers(cs[1..], c) {
        var k :| 0 <= k < |cs[1..]| && cs[1..][k].Some? && cs[1..][k].value.caption == c;
        assert cs[k + 1] == cs[1..][k];
      }
      if Offers(cs, c) && !(cs[0].Some? && cs[0].value.caption == c) {
        var k :| 0 <= k < |cs| && cs[k].Some? && cs[k].value.caption == c;
        assert cs[1..][k - 1] == cs[k];
      }
      if cs[0].Some? {
        HasLineCons(cs[0].value, Present(cs[1..]), c);
      }
    }
  }

  /** A line list with one more line in front has that line's caption and the rest's. */
  lemma HasLineCons(l: Line, rest: seq<Line>, c: Caption)
    ensures HasLine([l] + rest, c) <==> l.caption == c || HasLine(rest, c)
  {
    var r := [l] + rest;
    assert r[0] == l;
    if HasLine(rest, c) {
      var k :| 0 <= k < |rest| && rest[k].caption == c;
      assert r[k + 1] == rest[k];
    }
    if HasLine(r, c) && l.caption != c {
      var k :| 0 <= k < |r| && r[k].caption == c;
      assert rest[k - 1] == r[k];
    }
  }

  /** The array offers a caption exactly when the entry for that caption is present. */
  lemma {:induction false} CandidateOffers(p: SosPayload, nowIso: string, num: real -> string, c: Caption)
    ensures Offers(Candidates(p, nowIso, num), c) <==> Entry(p, nowIso, num, c).Some?
  {
    var cs := Candidates(p, nowIso, num);
    if Offers(cs, c) {
      var k :| 0 <= k < |cs| && cs[k].Some? && cs[k].value.caption == c;
      assert Rank(Order[k]) == k;
      assert Order[k] == c;
    }
    if Entry(p, nowIso, num, c).Some? {
      assert cs[Rank(c)] == Entry(p, nowIso, num, c);
    }
  }

  /**
   * The lines of the message: the banner, the reason (with its default), one
   * line per given optional field, the time (now when none is given) and the
   * call-back request.
   */
  function MessageLines(p: SosPayload, nowIso: string, num: real -> string): (lines: seq<Line>)
    ensures 4 <= |lines|
    ensures lines[0] == Line(Banner, "") && lines[|lines| - 1] == Line(Closing, "")
    ensures HasLine(lines, Reason) && HasLine(lines, Time)
  {
    FixedLines(p, nowIso, num);
    Present(Candidates(p, nowIso, num))
  }

  /** The banner, reason, time and closing entries are always present, so the filtered lines keep them. */
  lemma FixedLines(p: SosPayload, nowIso: string, num: real -> string)
    ensures var lines := Present(Candidates(p, nowIso, num));
            && 4 <= |lines|
            && lines[0] == Line(Banner, "") && lines[|lines| - 1] == Line(Closing, "")
            && HasLine(lines, Reason) && HasLine(lines, Time)
  {
    var cs := Candidates(p, nowIso, num);
    assert cs[0] == Entry(p, nowIso, num, Banner);
    assert cs[|cs| - 1] == Entry(p, nowIso, num, Closing);
    PresentKeepsCaptions(cs, Reason);
    CandidateOffers(p, nowIso, num, Reason);
    PresentKeepsCaptions(cs, Time);
    CandidateOffers(p, nowIso, num, Time);
    FourDistinctCaptions(Present(cs));
  }

  /** Lines that open with the banner, close with the call-back request, and hold a reason and a time are at least four. */
  lemma FourDistinctCaptions(lines: seq<Line>)
    requires |lines| > 0 && lines[0].caption == Banner && lines[|lines| - 1].caption == Closing
    requires HasLine(lines, Reason) && HasLine(lines, Time)
    ensures |lines| >= 4
  {
    var i :| 0 <= i < |lines| && lines[i].caption == Reason;
    var j :| 0 <= j < |lines| && lines[j].caption == Time;
    assert 0 < i < |lines| - 1 && 0 < j < |lines| - 1 && i != j;
  }

  /** A caption appears in the message exactly when its entry is present. */
  lemma LineAppearsIff(p: SosPayload, nowIso: string, num: real -> string, c: Caption)
    ensures HasLine(MessageLines(p, nowIso, num), c) <==> Entry(p, nowIso, num, c).Some?
  {
    PresentKeepsCaptions(Candidates(p, nowIso, num), c);
    CandidateOffers(p, nowIso, num, c);
  }

  /**
   * A line about the user appears exactly when the user gives that field, non-empty; the map
   * link and evidence lines appear exactly when given; the coordinates need both to be non-zero.
   */
  lemma OptionalLinesIff(p: SosPayload, nowIso: string, num: real -> string)
    ensures var lines := MessageLines(p, nowIso, num);
            && (HasLine(lines, Name) <==> p.user.Some? && Given(p.user.value.name))
            && (HasLine(lines, Phone) <==> p.user.Some? && Given(p.user.value.phone))
            && (HasLine(lines, BloodGroup) <==> p.user.Some? && Given(p.user.value.bloodGroup))
            && (HasLine(lines, Allergies) <==> p.user.Some? && Given(p.user.value.allergies))
            && (HasLine(lines, Medications) <==> p.user.Some? && Given(p.user.value.medications))
    ensures var lines := MessageLines(p, nowIso, num);
            && (HasLine(lines, MapLink) <==> p.location.Some? && Given(p.location.value.url))
            && (HasLine(lines, Coords) <==> p.location.Some? && NonZero(p.location.value.latitude) && NonZero(p.location.value.longitude))
            && (HasLine(lines, Evidence) <==> Given(p.evidenceUrl))
  {
    LineAppearsIff(p, nowIso, num, Name);
    LineAppearsIff(p, nowIso, num, Phone);
    LineAppearsIff(p, nowIso, num, BloodGroup);
    LineAppearsIff(p, nowIso, num, Allergies);
    LineAppearsIff(p, nowIso, num, Medications);
    LineAppearsIff(p, nowIso, num, MapLink);
    LineAppearsIff(p, nowIso, num, Coords);
    LineAppearsIff(p, nowIso, num, Evidence);
  }

  function Render(lines: seq<Line>): (r: seq<string>)
    ensures |r| == |lines|
    ensures forall k :: 0 <= k < |lines| ==> r[k] == CaptionText(lines[k].caption) + lines[k].value
  {
    seq(|lines|, k requires 0 <= k < |lines| => CaptionText(lines[k].caption) + lines[k].value)
  }

  /** `buildMessage`: the lines joined by newlines; it opens with the alert banner and closes with the call-back request. */
  function BuildMessage(p: SosPayload, nowIso: string, num: real -> string): (msg: string)
    ensures Text.StartsWith(msg, Header)
    ensures Text.EndsWith(msg, Footer)
  {
    var ls := MessageLines(p, nowIso, num);
    RenderedFrame(ls);
    Text.Join(Render(ls), "\n")
  }

  /** Lines that open with the banner and close with the closing line render to a text framed by the header and footer. */
  lemma RenderedFrame(ls: seq<Line>)
    requires |ls| > 0
    requires ls[0].caption == Banner && ls[0].value == ""
    requires ls[|ls| - 1].caption == Closing && ls[|ls| - 1].value == ""
    ensures Text.StartsWith(Text.Join(Render(ls), "\n"), Header)
    ensures Text.EndsWith(Text.Join(Render(ls), "\n"), Footer)
  {
    var lines := Render(ls);
    Text.JoinEnds(lines, "\n");
    assert lines[0] == CaptionText(ls[0].caption) + ls[0].value == Header + "";
    assert lines[|lines| - 1] == CaptionText(ls[|ls| - 1].caption) + ls[|ls| - 1].value == Footer + "";
  }

  // ----- Dispatch -----

  /** How one contact's SMS settled: fulfilled with a message id, or rejected with an optional error message. */
  datatype Settled = Fulfilled(sid: string) | Rejected(message: Option<string>)

  datatype Delivery = Skipped | Sent(sid: string) | Failed(error: string)

  datatype ResultEntry = ResultEntry(contact: Contact, delivery: Delivery)

  datatype SosResponse = SosResponse(status: int, results: seq<ResultEntry>)

  /** The summary entry for one contact. */
  function Summarize(c: Contact, s: Settled): (e: ResultEntry)
    ensures e.contact == c
    ensures e.delivery.Failed? <==> s.Rejected?
    ensures s.Rejected? ==> e.delivery.error == if Given(s.message) then s.message.value else "Unknown error"
  {
    match s
    case Fulfilled(sid) => ResultEntry(c, Sent(sid))
    case Rejected(m) => ResultEntry(c, Failed(if Given(m) then m.value else "Unknown error"))
  }

  function CountFailed(rs: seq<ResultEntry>): (n: nat)
    ensures n <= |rs|
    ensures n == 0 <==> forall k :: 0 <= k < |rs| ==> !rs[k].delivery.Failed?
    ensures n == |rs| <==> forall k :: 0 <= k < |rs| ==> rs[k].delivery.Failed?
  {
    if |rs| == 0 then 0
    else (if rs[0].delivery.Failed? then 1 else 0) + CountFailed(rs[1..])
  }

  /** The response status: 502 when every send failed, 207 when some did, 200 when none did. */
  function StatusFor(rs: seq<ResultEntry>): (status: int)
    requires |rs| > 0
    ensures status == 502 <==> forall k :: 0 <= k < |rs| ==> rs[k].delivery.Failed?
    ensures status == 207 <==> (exists k :: 0 <= k < |rs| && rs[k].delivery.Failed?) && (exists k :: 0 <= k < |rs| && !rs[k].delivery.Failed?)
    ensures status == 200 <==> forall k :: 0 <= k < |rs| ==> !rs[k].delivery.Failed?
  {
    var failed := CountFailed(rs);
    if failed == |rs| then 502 else if failed > 0 then 207 else 200
  }

  /**
   * `sendSOS`: 400 without a non-empty contact list; with the SMS provider not
   * configured, 200 and one skipped entry per contact; otherwise one entry per
   * contact, in order, from how its send settled (`settle(k)` for contact `k`),
   * and the aggregate status.
   */
  function SendSos(p: SosPayload, configured: bool, settle: nat -> Settled): (r: SosResponse)
    ensures p.contacts.None? || |p.contacts.value| == 0 <==> r.status == 400
    ensures r.status == 400 ==> r.results == []
    ensures r.status != 400 ==> |r.results| == |p.contacts.value|
    ensures r.status != 400 ==> forall k :: 0 <= k < |r.results| ==> r.results[k].contact == p.contacts.value[k]
    ensures r.status != 400 && !configured ==> r.status == 200 && forall k :: 0 <= k < |r.results| ==> r.results[k].delivery == Skipped
    ensures r.status != 400 && configured ==> forall k :: 0 <= k < |r.results| ==> (r.results[k].delivery.Failed? <==> settle(k).Rejected?)
    ensures r.status != 400 && configured ==> r.status == StatusFor(r.results)
  {
    if p.contacts.None? || |p.contacts.value| == 0 then SosResponse(400, [])
    else
      var cs := p.contacts.value;
      if !configured then SosResponse(200, seq(|cs|, k requires 0 <= k < |cs| => ResultEntry(cs[k], Skipped)))
      else
        var summary := seq(|cs|, k requires 0 <= k < |cs| => Summarize(cs[k], settle(k)));
        forall k | 0 <= k < |cs| ensures summary[k].contact == cs[k] {
          assert summary[k] == Summarize(cs[k], settle(k));
        }
        SosResponse(StatusFor(summary), summary)
  }

  /** When every send goes through the answer is 200; when none does it is 502. */
  lemma AllOrNothing(p: SosPayload, settle: nat -> Settled)
    requires p.contacts.Some? && |p.contacts.value| > 0
    ensures (forall k :: 0 <= k < |p.contacts.value| ==> settle(k).Fulfilled?) ==> SendSos(p, true, settle).status == 200
    ensures (forall k :: 0 <= k < |p.contacts.value| ==> settle(k).Rejected?) ==> SendSos(p, true, settle).status == 502
  {
  }
}

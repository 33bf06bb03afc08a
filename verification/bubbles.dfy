/**
 * Safety bubbles: small groups a user creates and others join with an
 * invite code. The bubble collection is a sequence in insertion order; the
 * creator is always a member, no one is a member twice, and invite codes are
 * unique (the schema's unique index).
 */
module Bubbles {
  import opened Wrappers
  import Text
  import Seqs
  import Sorting

  datatype Bubble = Bubble(
    name: string, icon: string, color: string, kind: string,
    creator: string, members: seq<string>, inviteCode: string, createdAt: int)

  const MaxNameLength: nat := 20

  /** The values the schema admits for a bubble's `type`. */
  predicate ValidKind(k: string) {
    k == "permanent" || k == "temporary"
  }

  predicate NoDuplicates(s: seq<string>) {
    forall i, j :: 0 <= i < j < |s| ==> s[i] != s[j]
  }

  predicate CodesUnique(s: seq<Bubble>) {
    forall i, j :: 0 <= i < j < |s| ==> s[i].inviteCode != s[j].inviteCode
  }

  /** What every stored collection satisfies. */
  predicate Wellformed(s: seq<Bubble>) {
    && CodesUnique(s)
    && (forall i :: 0 <= i < |s| ==> s[i].creator in s[i].members && NoDuplicates(s[i].members))
  }

  predicate CodeInUse(s: seq<Bubble>, code: string) {
    exists i :: 0 <= i < |s| && s[i].inviteCode == code
  }

  /** A field that JavaScript treats as true: present and non-empty. */
  predicate Given(v: Option<string>) {
    v.Some? && v.value != ""
  }

  const CodePrefix: string := "BUBBLE-"

  /** The invite code: the prefix, the creation time and a random suffix (a parameter here). */
  function InviteCode(now: int, suffix: string): (code: string)
    ensures Text.StartsWith(code, CodePrefix)
  {
    var code := CodePrefix + Text.IntToString(now) + "-" + suffix;
    assert code[..|CodePrefix|] == CodePrefix;
    code
  }

  datatype View = View(bubble: Bubble, isCreator: bool)

  datatype Reply = Unauthorized | BadRequest | NotFound | ServerError | Created(bubble: Bubble) | Joined(bubble: Bubble) | Listed(views: seq<View>)

  /**
   * `POST /`: 401 without a user; 400 when the name, icon, colour or type is
   * missing or empty; otherwise a bubble with the creator as its only member.
   * The save fails (500, nothing stored) when the schema rejects it: a name
   * over 20 characters, an unknown type, or an invite code already in use.
   * The clock is read twice: `codeTime` for the invite code, and `createdAt`
   * when the schema default stamps the new document.
   */
  function Create(s: seq<Bubble>, user: Option<string>, name: Option<string>, icon: Option<string>,
                  color: Option<string>, kind: Option<string>, codeTime: int, suffix: string, createdAt: int): (r: (seq<Bubble>, Reply))
    ensures user.None? ==> r == (s, Unauthorized)
    ensures user.Some? && !(Given(name) && Given(icon) && Given(color) && Given(kind)) ==> r == (s, BadRequest)
    ensures r.1.Created? <==> user.Some? && Given(name) && Given(icon) && Given(color) && Given(kind)
                              && |name.value| <= MaxNameLength && ValidKind(kind.value) && !CodeInUse(s, InviteCode(codeTime, suffix))
    ensures r.1.Created? ==> r.0 == s + [r.1.bubble] && r.1.bubble.members == [user.value] && r.1.bubble.creator == user.value
    ensures r.1.Created? ==> r.1.bubble.inviteCode == InviteCode(codeTime, suffix) && r.1.bubble.createdAt == createdAt
    ensures r.1.Created? ==> Text.StartsWith(r.1.bubble.inviteCode, CodePrefix)
    ensures !r.1.Created? ==> r.0 == s
    ensures Wellformed(s) ==> Wellformed(r.0)
  {
    if user.None? then (s, Unauthorized)
    else if !(Given(name) && Given(icon) && Given(color) && Given(kind)) then (s, BadRequest)
    else
      var code := InviteCode(codeTime, suffix);
      if |name.value| > MaxNameLength || !ValidKind(kind.value) || CodeInUse(s, code) then (s, ServerError)
      else
        var b := Bubble(name.value, icon.value, color.value, kind.value, user.value, [user.value], code, createdAt);
        (s + [b], Created(b))
  }

  /** The first bubble with the code; with unique codes, the only one. */
  function FindByCode(s: seq<Bubble>, code: string): (r: Option<nat>)
    ensures r.Some? ==> r.value < |s| && s[r.value].inviteCode == code
    ensures r.None? <==> !CodeInUse(s, code)
    ensures r.Some? && CodesUnique(s) ==> forall i :: 0 <= i < |s| && s[i].inviteCode == code ==> i == r.value
    decreases |s|
  {
    if |s| == 0 then None
    else if s[0].inviteCode == code then Some(0)
    else
      match FindByCode(s[1..], code)
      case None =>
        assert forall i :: 1 <= i < |s| ==> s[i] == s[1..][i - 1];
        None
      case Some(k) => Some(k + 1)
  }

  /**
   * `POST /join/:code`: 401 without a user, 404 for an unknown code, 400 for
   * someone already a member; otherwise the user is appended to that bubble's
   * members and every other bubble is left alone.
   */
  function Join(s: seq<Bubble>, user: Option<string>, code: string): (r: (seq<Bubble>, Reply))
    ensures user.None? ==> r == (s, Unauthorized)
    ensures user.Some? && !CodeInUse(s, code) ==> r == (s, NotFound)
    ensures !r.1.Joined? ==> r.0 == s
    ensures r.1.Joined? ==> user.Some? && CodeInUse(s, code)
    ensures user.Some? && FindByCode(s, code).Some? ==>
              var i := FindByCode(s, code).value;
              (user.value in s[i].members ==> r == (s, BadRequest)) &&
              (user.value !in s[i].members ==>
                 r.1.Joined? && |r.0| == |s| && r.0[i].members == s[i].members + [user.value] &&
                 r.0[i] == s[i].(members := s[i].members + [user.value]) &&
                 forall j :: 0 <= j < |s| && j != i ==> r.0[j] == s[j])
    ensures Wellformed(s) ==> Wellformed(r.0)
  {
    if user.None? then (s, Unauthorized)
    else
      match FindByCode(s, code)
      case None => (s, NotFound)
      case Some(i) =>
        if user.value in s[i].members then (s, BadRequest)
        else
          var b := s[i].(members := s[i].members + [user.value]);
          (s[i := b], Joined(b))
  }

  /** Joining twice with the same code is refused the second time and changes nothing. */
  lemma JoinTwiceRefused(s: seq<Bubble>, user: string, code: string)
    requires Join(s, Some(user), code).1.Joined?
    ensures var s1 := Join(s, Some(user), code).0;
            Join(s1, Some(user), code) == (s1, BadRequest)
  {
    var i := FindByCode(s, code).value;
    var s1 := Join(s, Some(user), code).0;
    assert s1[i].inviteCode == code;
    var k := FindByCode(s1, code);
    assert k.Some?;
    assert forall j :: 0 <= j < |s| ==> s1[j].inviteCode == s[j].inviteCode;
    assert FindByCode(s1, code) == FindByCode(s, code) by {
      InviteCodesUnchanged(s, s1, code);
    }
  }

  /** Two collections with the same codes in the same places find a code at the same index. */
  lemma {:induction false} InviteCodesUnchanged(s: seq<Bubble>, t: seq<Bubble>, code: string)
    requires |s| == |t| && forall j :: 0 <= j < |s| ==> s[j].inviteCode == t[j].inviteCode
    ensures FindByCode(s, code) == FindByCode(t, code)
    decreases |s|
  {
    if |s| > 0 {
      InviteCodesUnchanged(s[1..], t[1..], code);
    }
  }

  /** Newest first: the sort key of `sort({ createdAt: -1 })`. */
  function NewestFirst(b: Bubble): real {
    -(b.createdAt as real)
  }

  /** The bubbles listing `u` as a member, in stored order. */
  function MemberBubbles(s: seq<Bubble>, u: string): (r: seq<Bubble>)
    ensures forall b :: b in r <==> b in s && u in b.members
    ensures Seqs.IsSubseq(r, s)
  {
    Seqs.Filter(s, (b: Bubble) => u in b.members)
  }

  /** The bubbles a list of views shows, in order. */
  function ViewedBubbles(views: seq<View>): (r: seq<Bubble>)
    ensures |r| == |views| && forall k :: 0 <= k < |views| ==> r[k] == views[k].bubble
  {
    seq(|views|, k requires 0 <= k < |views| => views[k].bubble)
  }

  /** The bubbles of `u`, newest first, each flagged with whether `u` created it. */
  function MemberViews(s: seq<Bubble>, u: string): (views: seq<View>)
    ensures forall k :: 0 <= k < |views| ==>
              views[k].bubble in s && u in views[k].bubble.members && (views[k].isCreator <==> views[k].bubble.creator == u)
    ensures forall b :: b in s && u in b.members ==> exists k :: 0 <= k < |views| && views[k].bubble == b
    ensures forall i, j :: 0 <= i < j < |views| ==> views[i].bubble.createdAt >= views[j].bubble.createdAt
    ensures multiset(ViewedBubbles(views)) == multiset(MemberBubbles(s, u))
  {
    var mine := MemberBubbles(s, u);
    var sorted := Sorting.SortBy(mine, NewestFirst);
    Sorting.SameMembers(mine, sorted);
    var views := seq(|sorted|, k requires 0 <= k < |sorted| => View(sorted[k], sorted[k].creator == u));
    ViewsListMembersNewestFirst(s, u, sorted, views);
    assert ViewedBubbles(views) == sorted;
    views
  }

  lemma ViewsListMembersNewestFirst(s: seq<Bubble>, u: string, sorted: seq<Bubble>, views: seq<View>)
    requires forall b :: b in sorted <==> b in s && u in b.members
    requires Sorting.SortedBy(sorted, NewestFirst)
    requires |views| == |sorted| && forall k :: 0 <= k < |views| ==> views[k] == View(sorted[k], sorted[k].creator == u)
    ensures forall b :: b in s && u in b.members ==> exists k :: 0 <= k < |views| && views[k].bubble == b
    ensures forall i, j :: 0 <= i < j < |views| ==> views[i].bubble.createdAt >= views[j].bubble.createdAt
  {
    forall b | b in s && u in b.members ensures exists k :: 0 <= k < |views| && views[k].bubble == b {
      var k :| 0 <= k < |sorted| && sorted[k] == b;
      assert views[k].bubble == b;
    }
    forall i, j | 0 <= i < j < |views| ensures views[i].bubble.createdAt >= views[j].bubble.createdAt {
      assert NewestFirst(sorted[i]) <= NewestFirst(sorted[j]);
    }
  }

  /** `GET /`: 401 without a user, otherwise the user's bubbles newest first. */
  function List(s: seq<Bubble>, user: Option<string>): (r: Reply)
    ensures user.None? <==> r == Unauthorized
    ensures user.Some? ==> r == Listed(MemberViews(s, user.value))
  {
    match user
    case None => Unauthorized
    case Some(u) => Listed(MemberViews(s, u))
  }

  /** A bubble the user just created is listed for them, flagged as theirs. */
  lemma CreatorSeesOwnBubble(s: seq<Bubble>, user: string, name: Option<string>, icon: Option<string>,
                             color: Option<string>, kind: Option<string>, codeTime: int, suffix: string,
                             createdAt: int, s1: seq<Bubble>, b: Bubble)
    requires Create(s, Some(user), name, icon, color, kind, codeTime, suffix, createdAt) == (s1, Created(b))
    ensures exists k :: 0 <= k < |MemberViews(s1, user)| && MemberViews(s1, user)[k] == View(b, true)
  {
    assert s1 == s + [b] && b.members == [user] && b.creator == user;
    assert s1[|s|] == b;
    var views := MemberViews(s1, user);
    var k :| 0 <= k < |views| && views[k].bubble == b;
    assert views[k] == View(b, true);
  }
}

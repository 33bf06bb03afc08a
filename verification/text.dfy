/** The JavaScript string operations the source relies on, over `string == seq<char>`:
    `trim`, `toLowerCase`, `includes`, `indexOf`, `split(/\s+/)`, `join`, and the decimal
    rendering of a non-negative integer with `padStart`. */
module Text {
  import opened Wrappers

  /** The white-space class `\s` of JavaScript regular expressions, on its ASCII members. */
  predicate IsSpace(c: char) {
    c == ' ' || c == '\t' || c == '\n' || c == '\r' || c == '\U{0B}' || c == '\U{0C}'
  }

  predicate NoSpace(s: string) {
    forall i :: 0 <= i < |s| ==> !IsSpace(s[i])
  }

  predicate AllSpace(s: string) {
    forall i :: 0 <= i < |s| ==> IsSpace(s[i])
  }

  // ---------------------------------------------------------------- case

  function LowerChar(c: char): char {
    if 'A' <= c <= 'Z' then (c as int + 32) as char else c
  }

  predicate IsLower(s: string) {
    forall i :: 0 <= i < |s| ==> LowerChar(s[i]) == s[i]
  }

  /** `toLowerCase`, on the ASCII letters. */
  function ToLower(s: string): (r: string)
    ensures |r| == |s|
    ensures IsLower(r)
  {
    seq(|s|, i requires 0 <= i < |s| => LowerChar(s[i]))
  }

  lemma ToLowerOfLower(s: string)
    requires IsLower(s)
    ensures ToLower(s) == s
  {
  }

  // ---------------------------------------------------------------- trim

  /** Drops the leading white space (and is the step `split(/\s+/)` takes over a separator run). */
  function TrimStart(s: string): (r: string)
    decreases |s|
    ensures |r| <= |s| && r == s[|s| - |r|..]
    ensures AllSpace(s[..|s| - |r|])
    ensures |r| > 0 ==> !IsSpace(r[0])
  {
    if |s| > 0 && IsSpace(s[0]) then
      var r := TrimStart(s[1..]);
      var k := |s| - |r|;
      assert AllSpace(s[..k]) by {
        forall i | 0 <= i < k
          ensures IsSpace(s[..k][i])
        {
          if i > 0 { assert s[..k][i] == s[1..][..k - 1][i - 1]; }
        }
      }
      assert s[1..][k - 1..] == s[k..];
      r
    else s
  }

  function TrimEnd(s: string): (r: string)
    decreases |s|
    ensures |r| <= |s| && r == s[..|r|]
    ensures AllSpace(s[|r|..])
    ensures |r| > 0 ==> !IsSpace(r[|r| - 1])
  {
    if |s| > 0 && IsSpace(s[|s| - 1]) then
      var init := s[..|s| - 1];
      var r := TrimEnd(init);
      assert s[|r|..] == init[|r|..] + [s[|s| - 1]];
      assert init[..|r|] == s[..|r|];
      r
    else s
  }

  /** `String.prototype.trim`. */
  function Trim(s: string): string {
    TrimEnd(TrimStart(s))
  }

  /** A string trims to the empty string exactly when it is all white space. */
  lemma TrimEmptyIff(s: string)
    ensures Trim(s) == [] <==> AllSpace(s)
  {
    var t := TrimStart(s);
    var k := |s| - |t|;
    if Trim(s) == [] {
      assert |t| == 0;
      forall i | 0 <= i < |s|
        ensures IsSpace(s[i])
      {
        assert s[..k][i] == s[i];
      }
    } else {
      assert |t| > 0 && s[k] == t[0];
      assert !IsSpace(s[k]);
    }
  }


  // ---------------------------------------------------------------- search

  predicate StartsWith(s: string, prefix: string) {
    |prefix| <= |s| && s[..|prefix|] == prefix
  }

  predicate EndsWith(s: string, suffix: string) {
    |suffix| <= |s| && s[|s| - |suffix|..] == suffix
  }

  predicate OccursAt(s: string, sub: string, i: int) {
    0 <= i && i + |sub| <= |s| && s[i..i + |sub|] == sub
  }

  /** `String.prototype.indexOf`: the first position at which `sub` occurs. */
  function IndexOf(s: string, sub: string): (r: Option<nat>)
    decreases |s|
    ensures r.Some? ==> OccursAt(s, sub, r.value)
    ensures r.Some? ==> forall j :: 0 <= j < r.value ==> !OccursAt(s, sub, j)
    ensures r.None? ==> forall j :: !OccursAt(s, sub, j)
  {
    if StartsWith(s, sub) then
      assert s[0..|sub|] == s[..|sub|];
      Some(0)
    else if |s| == 0 || |sub| > |s| then
      None
    else
      var rest := IndexOf(s[1..], sub);
      assert !OccursAt(s, sub, 0) by { assert s[0..|sub|] == s[..|sub|]; }
      if rest.Some? then
        assert OccursAt(s, sub, rest.value + 1) && forall j :: 0 <= j <= rest.value ==> !OccursAt(s, sub, j) by {
          OccursInTail(s, sub);
        }
        Some(rest.value + 1)
      else
        assert forall j :: !OccursAt(s, sub, j) by { OccursInTail(s, sub); }
        None
  }

  lemma OccursInTail(s: string, sub: string)
    requires |s| > 0
    ensures forall j :: 1 <= j ==> (OccursAt(s, sub, j) <==> OccursAt(s[1..], sub, j - 1))
  {
    forall j | 1 <= j
      ensures OccursAt(s, sub, j) <==> OccursAt(s[1..], sub, j - 1)
    {
      if j + |sub| <= |s| {
        var a, b := s[j..j + |sub|], s[1..][j - 1..j - 1 + |sub|];
        forall m | 0 <= m < |a| ensures a[m] == b[m] {
          assert a[m] == s[j + m] && b[m] == s[1..][j - 1 + m];
        }
        assert a == b;
      }
    }
  }

  /** `String.prototype.includes`. */
  predicate Contains(s: string, sub: string) {
    IndexOf(s, sub).Some?
  }

  lemma ContainsIff(s: string, sub: string)
    ensures Contains(s, sub) <==> exists j :: OccursAt(s, sub, j)
  {
  }

  /** An occurrence inside the left or right operand of a concatenation is an occurrence in it. */
  lemma ContainsInConcat(a: string, b: string, sub: string)
    requires Contains(a, sub) || Contains(b, sub)
    ensures Contains(a + b, sub)
  {
    if Contains(a, sub) {
      var j := IndexOf(a, sub).value;
      assert (a + b)[j..j + |sub|] == a[j..j + |sub|];
      assert OccursAt(a + b, sub, j);
    } else {
      var j := IndexOf(b, sub).value;
      assert (a + b)[|a| + j..|a| + j + |sub|] == b[j..j + |sub|];
      assert OccursAt(a + b, sub, |a| + j);
    }
  }

  // ---------------------------------------------------------------- split and join

  /** The longest prefix of `s` without white space. */
  function LeadingWord(s: string): (w: string)
    decreases |s|
    ensures |w| <= |s| && w == s[..|w|]
    ensures NoSpace(w)
    ensures |w| < |s| ==> IsSpace(s[|w|])
  {
    if |s| == 0 || IsSpace(s[0]) then [] else [s[0]] + LeadingWord(s[1..])
  }

  /** `s.split(/\s+/)`: the pieces between maximal white-space runs, keeping an empty first
      or last piece when `s` starts or ends with white space (`"".split(/\s+/)` is `[""]`). */
  function Split(s: string): (r: seq<string>)
    decreases |s|
    ensures |r| >= 1
    ensures forall k :: 0 <= k < |r| ==> NoSpace(r[k])
  {
    var w := LeadingWord(s);
    var rest := s[|w|..];
    if |rest| == 0 then [w]
    else
      assert IsSpace(rest[0]);
      [w] + Split(TrimStart(rest))
  }

  /** A word followed by white space (or nothing) is the leading word. */
  lemma {:induction false} LeadingWordOf(w: string, t: string)
    requires NoSpace(w)
    requires |t| == 0 || IsSpace(t[0])
    ensures LeadingWord(w + t) == w
    decreases |w|
  {
    if |w| > 0 {
      assert (w + t)[1..] == w[1..] + t;
      LeadingWordOf(w[1..], t);
    } else {
      assert w + t == t;
    }
  }

  /** A word, one space and a text starting with a word split into that word and the text's pieces. */
  lemma SplitStep(w: string, t: string)
    requires NoSpace(w)
    requires |t| > 0 && !IsSpace(t[0])
    ensures Split(w + (" " + t)) == [w] + Split(t)
  {
    LeadingWordOf(w, " " + t);
    assert (w + (" " + t))[|w|..] == " " + t;
    assert (" " + t)[1..] == t;
    assert TrimStart(" " + t) == t;
  }

  /** Splitting words joined by single spaces gives the words back. */
  lemma {:induction false} SplitJoin(ws: seq<string>)
    requires |ws| > 0
    requires forall k :: 0 <= k < |ws| ==> |ws[k]| > 0 && NoSpace(ws[k])
    ensures Split(Join(ws, " ")) == ws
    decreases |ws|
  {
    if |ws| == 1 {
      LeadingWordOf(ws[0], []);
      assert ws[0] + [] == ws[0];
    } else {
      calc {
        Split(Join(ws, " "));
        == { SplitJoinStep(ws); }
        [ws[0]] + Split(Join(ws[1..], " "));
        == { SplitJoin(ws[1..]); }
        [ws[0]] + ws[1..];
        == { assert ws == [ws[0]] + ws[1..]; }
        ws;
      }
    }
  }

  /** Splitting words joined by single spaces splits off the first word first. */
  lemma SplitJoinStep(ws: seq<string>)
    requires |ws| > 1 && NoSpace(ws[0]) && |ws[1]| > 0 && !IsSpace(ws[1][0])
    ensures Split(Join(ws, " ")) == [ws[0]] + Split(Join(ws[1..], " "))
  {
    var tail := Join(ws[1..], " ");
    assert Join(ws, " ") == ws[0] + (" " + tail);
    assert tail[0] == ws[1][0] by { JoinEnds(ws[1..], " "); }
    SplitStep(ws[0], tail);
  }

  /** The non-empty pieces: `s.split(/\s+/).filter(w => w.length > 0)`. */
  function Words(s: string): (r: seq<string>)
    ensures forall k :: 0 <= k < |r| ==> |r[k]| > 0 && NoSpace(r[k])
  {
    NonEmpty(Split(s))
  }

  function NonEmpty(ws: seq<string>): (r: seq<string>)
    ensures |r| <= |ws|
    ensures forall k :: 0 <= k < |r| ==> |r[k]| > 0 && r[k] in ws
  {
    if |ws| == 0 then []
    else if |ws[0]| > 0 then [ws[0]] + NonEmpty(ws[1..])
    else NonEmpty(ws[1..])
  }

  /** `Array.prototype.join(sep)`. */
  function Join(ws: seq<string>, sep: string): string
    decreases |ws|
  {
    if |ws| == 0 then []
    else if |ws| == 1 then ws[0]
    else ws[0] + sep + Join(ws[1..], sep)
  }

  /** A join starts with the first part and ends with the last. */
  lemma {:induction false} JoinEnds(ws: seq<string>, sep: string)
    requires |ws| > 0
    ensures StartsWith(Join(ws, sep), ws[0])
    ensures EndsWith(Join(ws, sep), ws[|ws| - 1])
  {
    if |ws| > 1 {
      assert Join(ws, sep) == ws[0] + (sep + Join(ws[1..], sep));
      JoinEnds(ws[1..], sep);
      var tail := Join(ws[1..], sep);
      var last := ws[|ws| - 1];
      assert ws[1..][|ws[1..]| - 1] == last;
      assert Join(ws, sep) == (ws[0] + sep) + tail;
      assert (ws[0] + sep + tail)[|ws[0] + sep + tail| - |last|..] == tail[|tail| - |last|..];
    }
  }

  // ---------------------------------------------------------------- decimal numbers

  predicate IsDigit(c: char) {
    '0' <= c <= '9'
  }

  predicate AllDigits(s: string) {
    forall i :: 0 <= i < |s| ==> IsDigit(s[i])
  }

  function DigitChar(d: nat): (c: char)
    requires d < 10
    ensures IsDigit(c) && c as int - '0' as int == d
  {
    ('0' as int + d) as char
  }

  function DigitValue(c: char): nat
    requires IsDigit(c)
  {
    c as int - '0' as int
  }

  /** `String(n)` for a non-negative integer: decimal digits, no leading zero. */
  function NatToString(n: nat): (r: string)
    decreases n
    ensures |r| >= 1 && AllDigits(r)
    ensures |r| > 1 ==> r[0] != '0'
  {
    if n < 10 then [DigitChar(n)] else NatToString(n / 10) + [DigitChar(n % 10)]
  }

  /** `String(i)` for any integer. */
  function IntToString(i: int): (r: string)
    ensures i >= 0 ==> r == NatToString(i)
    ensures i < 0 ==> r == "-" + NatToString(-i)
  {
    if i < 0 then "-" + NatToString(-i) else NatToString(i)
  }

  /** Reads a string of decimal digits back to its value (the empty string reads as 0). */
  function ParseDecimal(s: string): nat
    requires AllDigits(s)
    decreases |s|
  {
    if |s| == 0 then 0 else ParseDecimal(s[..|s| - 1]) * 10 + DigitValue(s[|s| - 1])
  }

  lemma {:induction false} DecimalRoundTrip(n: nat)
    ensures ParseDecimal(NatToString(n)) == n
  {
    if n >= 10 {
      DecimalRoundTrip(n / 10);
      var s := NatToString(n);
      assert s[..|s| - 1] == NatToString(n / 10);
    }
  }

  /** Zeroes in front of a decimal text do not change its value; zeroes alone read as 0. */
  lemma {:induction false} LeadingZeroesIgnored(zs: string, s: string)
    requires forall i :: 0 <= i < |zs| ==> zs[i] == '0'
    requires AllDigits(s)
    ensures AllDigits(zs + s)
    ensures ParseDecimal(zs + s) == ParseDecimal(s)
    decreases |zs| + |s|
  {
    var t := zs + s;
    if |s| > 0 {
      assert t[..|t| - 1] == zs + s[..|s| - 1];
      LeadingZeroesIgnored(zs, s[..|s| - 1]);
    } else if |zs| > 0 {
      assert t == zs && t[..|t| - 1] == zs[..|zs| - 1] + s;
      LeadingZeroesIgnored(zs[..|zs| - 1], s);
    }
  }

  function Zeroes(k: nat): (r: string)
    ensures |r| == k && forall i :: 0 <= i < k ==> r[i] == '0'
  {
    seq(k, _ => '0')
  }

  /** `s.padStart(2, '0')`. */
  function PadStart2(s: string): (r: string)
    ensures |r| == if |s| < 2 then 2 else |s|
    ensures EndsWith(r, s)
  {
    if |s| < 2 then Zeroes(2 - |s|) + s else s
  }

  /** `String(n).padStart(2, '0')`: at least two digits, and it reads back as `n`. */
  function Pad2(n: nat): (r: string)
    ensures |r| >= 2 && AllDigits(r)
    ensures ParseDecimal(r) == n
    ensures n < 100 ==> |r| == 2
  {
    var s := NatToString(n);
    DecimalRoundTrip(n);
    if |s| < 2 then
      LeadingZeroesIgnored(Zeroes(2 - |s|), s);
      Zeroes(2 - |s|) + s
    else
      assert n < 100 ==> |s| <= 2 by {
        if n < 100 && |s| > 2 { NatToStringLength(n); }
      }
      s
  }

  lemma {:induction false} NatToStringLength(n: nat)
    ensures n < 10 ==> |NatToString(n)| == 1
    ensures 10 <= n < 100 ==> |NatToString(n)| == 2
  {
    if n >= 10 {
      NatToStringLength(n / 10);
    }
  }

  // ---------------------------------------------------------------- ordering

  /** JavaScript's `<` on strings: lexicographic by character, a proper prefix first. This is
      also the order in which an IndexedDB object store keeps its string keys. */
  predicate Less(a: string, b: string)
    decreases |a|
  {
    if |a| == 0 then |b| > 0
    else if |b| == 0 then false
    else if a[0] != b[0] then a[0] < b[0]
    else Less(a[1..], b[1..])
  }

  lemma {:induction false} LessTransitive(a: string, b: string, c: string)
    requires Less(a, b) && Less(b, c)
    ensures Less(a, c)
    decreases |a|
  {
    if |a| > 0 && |b| > 0 && |c| > 0 && a[0] == b[0] && b[0] == c[0] {
      LessTransitive(a[1..], b[1..], c[1..]);
    }
  }

  /** `Less` is irreflexive and total: of two different strings, one sorts before the other. */
  lemma {:induction false} LessOrder(a: string, b: string)
    ensures !Less(a, a)
    ensures a == b || Less(a, b) || Less(b, a)
    decreases |a|
  {
    if |a| > 0 && |b| > 0 && a[0] == b[0] {
      LessOrder(a[1..], b[1..]);
      if a[1..] == b[1..] {
        assert a == [a[0]] + a[1..] && b == [b[0]] + b[1..];
      }
    } else if |a| > 0 {
      LessOrder(a[1..], a[1..]);
    }
  }
}

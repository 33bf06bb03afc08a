/**
 * The voice-SOS settings panel's keyword list: adding a typed keyword,
 * removing one, and loading the saved list. Every change is handed to the
 * listener and saved under `voiceKeywords`, so the three copies of the list
 * (the panel's, the listener's, the saved one) stay the same.
 */
module KeywordEditor {
  import opened Wrappers
  import Text
  import Seqs
  import VoiceSos

  /** The panel's keywords when its caller gives none. */
  const InitialKeywords: seq<string> := ["help me", "emergency", "code red"]

  /** The panel: its keyword list, the text typed in the new-keyword box, the listener, the saved list. */
  datatype Editor = Editor(keywords: seq<string>, draft: string, service: VoiceSos.Service, saved: Option<seq<string>>)

  predicate NoDuplicates(ks: seq<string>) {
    forall i, j :: 0 <= i < j < |ks| ==> ks[i] != ks[j]
  }

  /** The three copies of the list agree. */
  predicate InSync(e: Editor) {
    e.service.keywords == e.keywords && e.saved == Some(e.keywords)
  }

  /** A new list: kept by the panel, handed to the listener, saved. */
  function Commit(e: Editor, updated: seq<string>): (r: Editor)
    ensures VoiceSos.AllLower(updated) ==> InSync(r)
    ensures r.keywords == updated && r.draft == e.draft && r.saved == Some(updated)
    ensures r.service.listening == e.service.listening && r.service.supported == e.service.supported
  {
    SetLowerKeepsList(e.service, updated);
    e.(keywords := updated, service := VoiceSos.SetKeywords(e.service, updated), saved := Some(updated))
  }

  /** The listener keeps a lower-case list exactly as given. */
  lemma SetLowerKeepsList(s: VoiceSos.Service, ks: seq<string>)
    ensures VoiceSos.AllLower(ks) ==> VoiceSos.SetKeywords(s, ks).keywords == ks
  {
    if VoiceSos.AllLower(ks) {
      var r := VoiceSos.SetKeywords(s, ks);
      forall k | 0 <= k < |ks| ensures r.keywords[k] == ks[k] {
        Text.ToLowerOfLower(r.keywords[k]);
        Text.ToLowerOfLower(ks[k]);
      }
    }
  }

  /** The keyword the box holds: trimmed and lower-cased. */
  function Typed(e: Editor): string {
    Text.ToLower(Text.Trim(e.draft))
  }

  /**
   * The add button as written: the duplicate check looks for the trimmed text
   * as typed, while the list receives its lower-case form.
   */
  function AddKeywordAsWritten(e: Editor): (r: Editor)
    ensures Text.AllSpace(e.draft) || Text.Trim(e.draft) in e.keywords ==> r == e
    ensures !Text.AllSpace(e.draft) && Text.Trim(e.draft) !in e.keywords ==>
              r == Commit(e, e.keywords + [Typed(e)]).(draft := "")
  {
    Text.TrimEmptyIff(e.draft);
    var t := Text.Trim(e.draft);
    if t != "" && t !in e.keywords then Commit(e, e.keywords + [Text.ToLower(t)]).(draft := "") else e
  }

  /** When the typed text differs from its lower-case form already listed, the add button as written lists it twice. */
  lemma AsWrittenAddsDuplicate(e: Editor)
    requires !Text.AllSpace(e.draft) && Text.Trim(e.draft) !in e.keywords && Typed(e) in e.keywords
    ensures !NoDuplicates(AddKeywordAsWritten(e).keywords)
  {
    var r := AddKeywordAsWritten(e);
    var i :| 0 <= i < |e.keywords| && e.keywords[i] == Typed(e);
    assert r.keywords[i] == r.keywords[|e.keywords|];
  }

  /** Typing "Help" while "help" is listed. */
  lemma AsWrittenHelpTwice(service: VoiceSos.Service)
    ensures AddKeywordAsWritten(Editor(["help"], "Help", service, None)).keywords == ["help", "help"]
  {
    var e := Editor(["help"], "Help", service, None);
    assert Text.TrimStart("Help") == "Help";
    assert Text.TrimEnd("Help") == "Help";
    assert Text.ToLower("Help") == "help" by {
      var l := Text.ToLower("Help");
      assert l[0] == 'h' && l[1] == 'e' && l[2] == 'l' && l[3] == 'p';
    }
    assert "Help" !in ["help"] by { assert "Help"[0] != "help"[0]; }
    assert !Text.AllSpace("Help") by { assert !Text.IsSpace("Help"[0]); }
  }

  /**
   * The add button with the duplicate check on the form the list stores: a
   * blank box or a keyword already listed changes nothing; otherwise the
   * keyword is appended, lower-cased, the box is cleared and the list is
   * handed on and saved.
   */
  function AddKeyword(e: Editor): (r: Editor)
    ensures Text.AllSpace(e.draft) || Typed(e) in e.keywords ==> r == e
    ensures !Text.AllSpace(e.draft) && Typed(e) !in e.keywords ==>
              r.keywords == e.keywords + [Typed(e)] && r.draft == "" && r.saved == Some(r.keywords)
    ensures NoDuplicates(e.keywords) ==> NoDuplicates(r.keywords)
    ensures VoiceSos.AllLower(e.keywords) && r != e ==> VoiceSos.AllLower(r.keywords) && InSync(r)
  {
    Text.TrimEmptyIff(e.draft);
    var t := Text.Trim(e.draft);
    if t != "" && Text.ToLower(t) !in e.keywords then
      AppendKeepsList(e.keywords, Text.ToLower(t));
      Commit(e, e.keywords + [Text.ToLower(t)]).(draft := "")
    else e
  }

  /** Appending a lower-case keyword not yet listed keeps the list distinct and lower-case. */
  lemma AppendKeepsList(ks: seq<string>, x: string)
    requires x !in ks && Text.IsLower(x)
    ensures NoDuplicates(ks) ==> NoDuplicates(ks + [x])
    ensures VoiceSos.AllLower(ks) ==> VoiceSos.AllLower(ks + [x])
  {
    var r := ks + [x];
    assert forall i :: 0 <= i < |ks| ==> r[i] == ks[i];
  }

  /** The remove button: every copy of the keyword goes, the others stay in order. */
  function RemoveKeyword(e: Editor, keyword: string): (r: Editor)
    ensures forall x :: x in r.keywords <==> x in e.keywords && x != keyword
    ensures Seqs.IsSubseq(r.keywords, e.keywords)
    ensures r.saved == Some(r.keywords) && r.draft == e.draft
    ensures VoiceSos.AllLower(e.keywords) ==> VoiceSos.AllLower(r.keywords) && InSync(r)
    ensures NoDuplicates(e.keywords) ==> NoDuplicates(r.keywords)
  {
    var updated := Seqs.Filter(e.keywords, (k: string) => k != keyword);
    SubseqKeepsDistinct(updated, e.keywords);
    Commit(e, updated)
  }

  lemma SubseqKeepsDistinct(r: seq<string>, ks: seq<string>)
    requires Seqs.IsSubseq(r, ks)
    ensures NoDuplicates(ks) ==> NoDuplicates(r)
  {
    if NoDuplicates(ks) {
      Seqs.SubseqKeepsPairwise(r, ks, (a: string, b: string) => a != b);
    }
  }

  /** Removing the keyword just added gives back the list as it was. */
  lemma AddThenRemove(e: Editor)
    requires !Text.AllSpace(e.draft) && Typed(e) !in e.keywords
    ensures RemoveKeyword(AddKeyword(e), Typed(e)).keywords == e.keywords
  {
    var k := Typed(e);
    var p := (x: string) => x != k;
    Seqs.FilterDropsLast(e.keywords, k, p);
    Seqs.FilterKeepsAll(e.keywords, p);
  }

  /** What `localStorage` holds under `voiceKeywords`. */
  datatype SavedKeywords = NothingSaved | Unparsable | SavedList(keywords: seq<string>)

  /** Loading on mount: a readable saved list replaces the panel's list and the listener's. */
  function LoadSaved(e: Editor, stored: SavedKeywords): (r: Editor)
    ensures !stored.SavedList? ==> r == e
    ensures stored.SavedList? ==> r.keywords == stored.keywords && r.service == VoiceSos.SetKeywords(e.service, stored.keywords)
    ensures stored.SavedList? && VoiceSos.AllLower(stored.keywords) ==> r.service.keywords == r.keywords
  {
    match stored
    case SavedList(ks) =>
      var r := Commit(e, ks);
      r.(saved := e.saved)
    case _ => e
  }

  /** A list the panel saved loads back as the same list, in the panel and in the listener. */
  lemma SaveThenLoad(e: Editor, mounted: Editor)
    requires VoiceSos.AllLower(e.keywords) && InSync(e)
    ensures LoadSaved(mounted, SavedList(e.saved.value)).keywords == e.keywords
    ensures LoadSaved(mounted, SavedList(e.saved.value)).service.keywords == e.keywords
  {
  }
}

/**
 * Worked cases: lemmas that evaluate the model on concrete inputs, in the
 * spirit of the repository's tests.
 */
module Scenarios {
  import opened Wrappers
  import opened Strings
  import opened Normalize
  import opened Dict
  import opened Submissions
  import opened StoreModel
  import opened Renderer
  import Intake

  function Guest(id: string, dashboard: int, name: string, rg: Option<string>): Submission {
    Submission(id, dashboard, name, None, rg, None, None, [], None, "outros", [], 0)
  }

  lemma FoldLower()
    ensures FoldAll("Jo\U{E3}o") == "joao"
  {
    FoldAllAt("Jo\U{E3}o");
  }

  lemma FoldUpper()
    ensures FoldAll("JO\U{C3}O") == "joao"
  {
    FoldAllAt("JO\U{C3}O");
  }

  lemma FoldPlain()
    ensures FoldAll("joao") == "joao"
  {
    FoldAllAt("joao");
  }

  lemma CanonicalPlain()
    ensures Canonical("joao")
  {
  }

  /** Accents and letter case do not tell two names apart. */
  lemma AccentedNameNormalises()
    ensures NormalizeName("Jo\U{E3}o") == "joao"
    ensures NormalizeName("JO\U{C3}O") == "joao"
  {
    FoldLower();
    FoldUpper();
    FoldPlain();
    CanonicalPlain();
    NormalizeNameFixesCanonical("joao");
  }

  /** The same guest, written differently, is a duplicate on the same dashboard. */
  lemma SameGuestIsDuplicate()
    ensures IsDuplicate(Added(Empty(), Guest("a", 7, "Jo\U{E3}o", None)), Guest("b", 7, "JO\U{C3}O", None))
  {
    AccentedNameNormalises();
    AddedMakesDuplicate(Empty(), Guest("a", 7, "Jo\U{E3}o", None), Guest("b", 7, "JO\U{C3}O", None));
  }

  /** Deduplication is per dashboard: after one submission, nothing on another dashboard is a duplicate. */
  lemma OtherDashboardIsNot(first: Submission, later: Submission)
    requires first.dashboardId != later.dashboardId
    ensures !IsDuplicate(Added(Empty(), first), later)
  {
    AddedFacts(Empty(), first);
    assert Seen(Added(Empty(), first), later.dashboardId) == {};
  }

  lemma RgExample()
    ensures NormalizeRg("12.345-6") == "123456" && NormalizeRg("123456") == "123456"
  {
  }

  /** The RG is compared by its digits only. */
  lemma RgDigitsOnly()
    ensures IsDuplicate(Added(Empty(), Guest("a", 7, "Maria", Some("12.345-6"))), Guest("b", 7, "Ana", Some("123456")))
  {
    RgExample();
    var first := Guest("a", 7, "Maria", Some("12.345-6"));
    var second := Guest("b", 7, "Ana", Some("123456"));
    AddedFacts(Empty(), first);
    assert RgKey("123456") in DedupKeys(first);
    assert RgKey("123456") in DedupKeys(second);
  }

  /** A submission without name letters and without an RG has no key and is never a duplicate. */
  lemma NoLettersNoKey(st: StoreState)
    ensures !IsDuplicate(st, Guest("c", 7, "123", None))
  {
    FoldAllAt("123");
    assert FoldAll("123") == "123";
    assert KeepLetters("123") == "";
    NoKeysNeverDuplicate(st, Guest("c", 7, "123", None));
  }

  /** ISO dates are turned around and anything else is returned unchanged. */
  lemma DateExamples()
    ensures FormatDateBr("2024-03-15") == "15/03/2024"
    ensures FormatDateBr("15/03/2024") == "15/03/2024"
    ensures FormatDateBr("") == ""
  {
    assert IsIsoDate("2024-03-15");
    assert !IsIsoDate("15/03/2024") by {
      assert "15/03/2024"[4] != '-';
    }
  }

  /** A report without photos ends with `ANEXOS: 0 foto(s)`. */
  lemma NoPhotosLastLine(sub: Submission)
    requires sub.photos == []
    ensures ReportLines(sub)[|ReportLines(sub)| - 1] == "ANEXOS: 0 foto(s)"
  {
    ReportSections(sub);
    assert NatToString(0) == "0";
  }

  /** A name of white space only is turned away and adds nothing. */
  lemma BlankNameTurnedAway(st: StoreState, files: seq<Intake.Upload>, stripExif: Bytes -> Bytes)
    ensures var c := Intake.Candidate([("guest_name", "   ")], files, map[], Intake.Limits(None, None), 7, "id", 0, stripExif);
      Intake.Decide(st, c) == Intake.NameRequired && Intake.After(st, c) == st
  {
    assert Strip("   ") == "" by {
      StripShape("   ");
    }
  }
}

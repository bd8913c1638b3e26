/**
 * Identity normalisers of the submission store (app/store/__init__.py):
 * `_normalize_name` and `_normalize_rg`, the canonical forms from which the
 * dedup keys are derived.
 */
module Normalize {
  import opened Strings

  /**
   * One character after `lower()`, canonical decomposition and removal of the
   * combining marks: ASCII capitals become lower case and the accented letters
   * of Latin-1 become their base letter; any other character is returned
   * unchanged (and is later dropped unless it is a letter or white space).
   */
  function Fold(c: char): (r: char)
    ensures IsLower(c) || c == ' ' ==> r == c
    ensures 'A' <= c <= 'Z' ==> IsLower(r)
  {
    // Latin-1 capital letters (U+00C0-U+00DE, without the sign U+00D7) lower-case to c + 0x20.
    var l := if '\U{C0}' <= c <= '\U{DE}' && c != '\U{D7}' then (c as int + 32) as char else LowerChar(c);
    if '\U{E0}' <= l <= '\U{E5}' then 'a'
    else if l == '\U{E7}' then 'c'
    else if '\U{E8}' <= l <= '\U{EB}' then 'e'
    else if '\U{EC}' <= l <= '\U{EF}' then 'i'
    else if l == '\U{F1}' then 'n'
    else if '\U{F2}' <= l <= '\U{F6}' then 'o'
    else if '\U{F9}' <= l <= '\U{FC}' then 'u'
    else if l == '\U{FD}' || l == '\U{FF}' then 'y'
    else l
  }

  /** `Fold` applied to every character. */
  function FoldAll(s: string): string {
    if s == [] then [] else [Fold(s[0])] + FoldAll(s[1..])
  }

  /** `FoldAll` works character by character. */
  lemma {:induction false} FoldAllAt(s: string)
    ensures |FoldAll(s)| == |s|
    ensures forall i :: 0 <= i < |s| ==> FoldAll(s)[i] == Fold(s[i])
  {
    if s != [] {
      FoldAllAt(s[1..]);
    }
  }

  /** What the regular expression `[^a-z\s]` leaves in place. */
  predicate Kept(c: char) {
    IsLower(c) || IsSpace(c)
  }

  /** The characters of `s` that are kept, in order (`re.sub(r"[^a-z\s]", "", s)`). */
  function KeepLetters(s: string): string {
    if s == [] then []
    else (if Kept(s[0]) then [s[0]] else []) + KeepLetters(s[1..])
  }

  /** Only kept characters survive, and a string of kept characters survives whole. */
  lemma {:induction false} KeepLettersKept(s: string)
    ensures forall i :: 0 <= i < |KeepLetters(s)| ==> Kept(KeepLetters(s)[i])
    ensures (forall i :: 0 <= i < |s| ==> Kept(s[i])) ==> KeepLetters(s) == s
  {
    if s != [] {
      KeepLettersKept(s[1..]);
    }
  }

  /** `re.sub(r"\s+", " ", s)`: every maximal run of white space becomes one space. */
  function CollapseSpaces(s: string): string
    decreases |s|
  {
    if s == [] then []
    else if IsSpace(s[0]) then [' '] + CollapseSpaces(StripLeft(s[1..]))
    else [s[0]] + CollapseSpaces(s[1..])
  }

  /** The normalised name of `_normalize_name`. */
  function NormalizeName(name: string): string {
    Strip(CollapseSpaces(KeepLetters(FoldAll(name))))
  }

  /** Only letters `a`-`z` and spaces. */
  predicate LettersAndSpaces(t: string) {
    forall i :: 0 <= i < |t| ==> IsLower(t[i]) || t[i] == ' '
  }

  /** No two spaces next to each other. */
  predicate SingleSpaces(t: string) {
    forall i :: 0 <= i < |t| - 1 ==> t[i] == ' ' ==> t[i + 1] != ' '
  }

  /** The canonical form: letters `a`-`z` separated by single spaces, with no space at either end. */
  predicate Canonical(t: string) {
    && LettersAndSpaces(t)
    && SingleSpaces(t)
    && (t != [] ==> t[0] != ' ' && t[|t| - 1] != ' ')
  }

  lemma {:induction false} CollapseShape(s: string)
    requires forall i :: 0 <= i < |s| ==> Kept(s[i])
    ensures LettersAndSpaces(CollapseSpaces(s)) && SingleSpaces(CollapseSpaces(s))
    ensures CollapseSpaces(s) != [] ==> (CollapseSpaces(s)[0] == ' ' <==> IsSpace(s[0]))
    decreases |s|
  {
    if s != [] {
      if IsSpace(s[0]) {
        var t := StripLeft(s[1..]);
        StripLeftShape(s[1..]);
        CollapseShape(t);
        var c := CollapseSpaces(t);
        assert CollapseSpaces(s) == [' '] + c;
        assert c != [] ==> c[0] != ' ';
      } else {
        CollapseShape(s[1..]);
        assert CollapseSpaces(s) == [s[0]] + CollapseSpaces(s[1..]);
      }
    }
  }

  lemma {:induction false} CollapseUnchanged(t: string)
    requires LettersAndSpaces(t) && SingleSpaces(t)
    ensures CollapseSpaces(t) == t
    decreases |t|
  {
    if t != [] {
      assert LettersAndSpaces(t[1..]) && SingleSpaces(t[1..]);
      if t[0] == ' ' {
        assert t[1..] == [] || !IsSpace(t[1..][0]);
        assert StripLeft(t[1..]) == t[1..];
      }
      CollapseUnchanged(t[1..]);
    }
  }

  /** The output of `_normalize_name` is in canonical form. */
  lemma NormalizeNameCanonical(name: string)
    ensures Canonical(NormalizeName(name))
  {
    var kept := KeepLetters(FoldAll(name));
    KeepLettersKept(FoldAll(name));
    CollapseShape(kept);
    StripCanonical(CollapseSpaces(kept));
  }

  /** Stripping a string of letters and single spaces gives a canonical string. */
  lemma StripCanonical(c: string)
    requires LettersAndSpaces(c) && SingleSpaces(c)
    ensures Canonical(Strip(c))
  {
    var r := Strip(c);
    StripShape(c);
    var a := |c| - |StripLeft(c)|;
    assert forall i :: 0 <= i < |r| ==> r[i] == c[a + i];
  }

  /** Canonical strings are left unchanged by `_normalize_name`. */
  lemma NormalizeNameFixesCanonical(t: string)
    requires Canonical(t)
    ensures NormalizeName(t) == t
  {
    FoldAllAt(t);
    assert FoldAll(t) == t;
    KeepLettersKept(t);
    CollapseUnchanged(t);
    StripUnchanged(t);
  }

  /** `_normalize_name` is idempotent. */
  lemma NormalizeNameIdempotent(name: string)
    ensures NormalizeName(NormalizeName(name)) == NormalizeName(name)
  {
    NormalizeNameCanonical(name);
    NormalizeNameFixesCanonical(NormalizeName(name));
  }

  /** The normalised RG of `_normalize_rg`: the decimal digits of `rg`, in order. */
  function NormalizeRg(rg: string): (r: string)
    ensures |r| <= |rg|
    ensures forall i :: 0 <= i < |r| ==> IsDigit(r[i])
  {
    if rg == [] then []
    else (if IsDigit(rg[0]) then [rg[0]] else []) + NormalizeRg(rg[1..])
  }

  /** Normalising a concatenation normalises each part. */
  lemma {:induction false} NormalizeRgAppend(a: string, b: string)
    ensures NormalizeRg(a + b) == NormalizeRg(a) + NormalizeRg(b)
  {
    if a == [] {
      assert a + b == b;
    } else {
      assert (a + b)[1..] == a[1..] + b;
      NormalizeRgAppend(a[1..], b);
    }
  }

  /** A string of digits is its own normal form, and only such a string is. */
  lemma {:induction false} NormalizeRgFixesDigits(s: string)
    ensures NormalizeRg(s) == s <==> forall i :: 0 <= i < |s| ==> IsDigit(s[i])
  {
    if s != [] {
      NormalizeRgFixesDigits(s[1..]);
      if !IsDigit(s[0]) {
        assert |NormalizeRg(s)| <= |s[1..]|;
      }
    }
  }

  /** `_normalize_rg` is idempotent. */
  lemma NormalizeRgIdempotent(rg: string)
    ensures NormalizeRg(NormalizeRg(rg)) == NormalizeRg(rg)
  {
    NormalizeRgFixesDigits(NormalizeRg(rg));
  }
}

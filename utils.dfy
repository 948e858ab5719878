// client/src/lib/utils.ts: `slugify`, `truncateText` and `getPlaceholderImage`.
module Utils {
  import opened Seqs
  import opened Text

  /** Drops the longest prefix whose characters all satisfy `p`. */
  function DropWhile(s: string, p: char -> bool): (r: string)
    ensures |r| <= |s| && r == s[|s| - |r|..]
    ensures r == [] || !p(r[0])
    ensures s != [] && p(s[0]) ==> |r| < |s|
    ensures s == [] || !p(s[0]) ==> r == s
  {
    if s != [] && p(s[0]) then DropWhile(s[1..], p) else s
  }

  /** No two neighbouring characters of `s` both satisfy `p`. */
  predicate Separated(s: string, p: char -> bool) {
    forall i :: 0 <= i < |s| - 1 ==> !(p(s[i]) && p(s[i + 1]))
  }

  /** Every character of `s` satisfies `P`. */
  predicate AllChars(s: string, P: char -> bool) {
    forall i :: 0 <= i < |s| ==> P(s[i])
  }

  /**
   * `s.replace(/P+/g, c)`: every maximal run of characters satisfying `p`
   * becomes the single character `c`; other characters are kept in order.
   */
  function ReplaceRuns(s: string, p: char -> bool, c: char): (r: string)
    ensures s != [] ==> r != [] && r[0] == (if p(s[0]) then c else s[0])
    decreases |s|
  {
    if s == [] then []
    else if p(s[0]) then [c] + ReplaceRuns(DropWhile(s, p), p, c)
    else [s[0]] + ReplaceRuns(s[1..], p, c)
  }

  /** A property of every character survives replacement by a character that has it too. */
  lemma {:induction false} ReplaceRunsKeeps(s: string, p: char -> bool, c: char, P: char -> bool)
    requires AllChars(s, P) && P(c)
    ensures AllChars(ReplaceRuns(s, p, c), P)
    decreases |s|
  {
    if s != [] {
      if p(s[0]) {
        ReplaceRunsKeeps(DropWhile(s, p), p, c, P);
      } else {
        ReplaceRunsKeeps(s[1..], p, c, P);
      }
    }
  }

  /** When the replacement satisfies `p`, no two neighbours of the result do. */
  lemma {:induction false} ReplaceRunsSeparated(s: string, p: char -> bool, c: char)
    requires p(c)
    ensures Separated(ReplaceRuns(s, p, c), p)
    decreases |s|
  {
    if s != [] {
      var r := ReplaceRuns(s, p, c);
      var t;
      if p(s[0]) {
        var rest := DropWhile(s, p);
        ReplaceRunsSeparated(rest, p, c);
        t := ReplaceRuns(rest, p, c);
        assert t != [] ==> !p(t[0]);
      } else {
        ReplaceRunsSeparated(s[1..], p, c);
        t := ReplaceRuns(s[1..], p, c);
      }
      assert r == [r[0]] + t;
      forall i | 0 <= i < |r| - 1
        ensures !(p(r[i]) && p(r[i + 1]))
      {
        if i > 0 {
          assert r[i] == t[i - 1] && r[i + 1] == t[i];
        }
      }
    }
  }

  /** With no character satisfying `p`, replacing runs changes nothing. */
  lemma {:induction false} ReplaceRunsNoMatch(s: string, p: char -> bool, c: char)
    requires forall i :: 0 <= i < |s| ==> !p(s[i])
    ensures ReplaceRuns(s, p, c) == s
    decreases |s|
  {
    if s != [] {
      ReplaceRunsNoMatch(s[1..], p, c);
    }
  }

  /** When every run already is the single character `c`, replacing runs changes nothing. */
  lemma {:induction false} ReplaceRunsSingletons(s: string, p: char -> bool, c: char)
    requires forall i :: 0 <= i < |s| && p(s[i]) ==> s[i] == c
    requires forall i :: 0 <= i < |s| - 1 ==> !(p(s[i]) && p(s[i + 1]))
    ensures ReplaceRuns(s, p, c) == s
    decreases |s|
  {
    if s != [] {
      ReplaceRunsSingletons(s[1..], p, c);
      if p(s[0]) {
        assert |s| > 1 ==> !p(s[1]);
        assert DropWhile(s[1..], p) == s[1..];
      }
    }
  }

  /** `trimStart`: the suffix left after the leading white space. */
  function TrimStart(s: string): (r: string)
    ensures |r| <= |s| && r == s[|s| - |r|..]
    ensures r == [] || !IsSpace(r[0])
  {
    DropWhile(s, IsSpace)
  }

  /** `trimEnd`: the prefix left before the trailing white space. */
  function TrimEnd(s: string): (r: string)
    ensures |r| <= |s| && r == s[..|r|]
    ensures r == [] || !IsSpace(r[|r| - 1])
    ensures s == [] || !IsSpace(s[|s| - 1]) ==> r == s
  {
    if s != [] && IsSpace(s[|s| - 1]) then TrimEnd(s[..|s| - 1]) else s
  }

  /** `s.trim()`: white space cut from both ends. */
  function Trim(s: string): (r: string)
    ensures r == [] || (!IsSpace(r[0]) && !IsSpace(r[|r| - 1]))
  {
    TrimEnd(TrimStart(s))
  }

  /** What `DropWhile` drops satisfies `p`. */
  lemma {:induction false} DropWhileDrops(s: string, p: char -> bool)
    ensures forall i :: 0 <= i < |s| - |DropWhile(s, p)| ==> p(s[i])
    decreases |s|
  {
    if s != [] && p(s[0]) {
      DropWhileDrops(s[1..], p);
      forall i | 0 <= i < |s| - |DropWhile(s, p)| ensures p(s[i]) {
        if i > 0 { assert s[i] == s[1..][i - 1]; }
      }
    }
  }

  /** What `TrimEnd` drops is white space. */
  lemma {:induction false} TrimEndDrops(s: string)
    ensures forall i :: |TrimEnd(s)| <= i < |s| ==> IsSpace(s[i])
    decreases |s|
  {
    if s != [] && IsSpace(s[|s| - 1]) {
      var u := s[..|s| - 1];
      TrimEndDrops(u);
      forall i | |TrimEnd(s)| <= i < |s| ensures IsSpace(s[i]) {
        if i < |s| - 1 { assert s[i] == u[i]; }
      }
    }
  }

  /**
   * `Trim(s)` is the slice of `s` after its `a` leading characters, where
   * everything cut off on either side is white space; as it neither starts
   * nor ends with white space, it is empty exactly when `s` is all white space.
   */
  lemma TrimSpec(s: string)
    ensures var r, a := Trim(s), |s| - |TrimStart(s)|;
      0 <= a && a + |r| <= |s| && r == s[a..a + |r|] &&
      (forall i :: 0 <= i < a ==> IsSpace(s[i])) && (forall i :: a + |r| <= i < |s| ==> IsSpace(s[i]))
    ensures Trim(s) == [] <==> forall i :: 0 <= i < |s| ==> IsSpace(s[i])
  {
    var t := TrimStart(s);
    var r := Trim(s);
    var a := |s| - |t|;
    DropWhileDrops(s, IsSpace);
    TrimEndDrops(t);
    assert r == t[..|r|];
    assert r == s[a..a + |r|];
    forall i | a + |r| <= i < |s| ensures IsSpace(s[i]) {
      assert s[i] == t[i - a];
    }
    if r != [] {
      assert s[a] == r[0];
    }
  }

  /** Trimming only removes characters, so it keeps every per-character property. */
  lemma TrimKeeps(s: string, P: char -> bool)
    requires AllChars(s, P)
    ensures AllChars(Trim(s), P)
  {
    var t := TrimStart(s);
    assert forall i :: 0 <= i < |t| ==> t[i] == s[|s| - |t| + i];
    var r := TrimEnd(t);
    assert forall i :: 0 <= i < |r| ==> r[i] == t[i];
  }

  predicate IsDash(c: char) { c == '-' }

  /** The characters `[^\w-]` does not remove. */
  predicate IsSlugChar(c: char) { IsWordChar(c) || c == '-' }

  /** The characters a slug is made of: `[a-z0-9_-]`. */
  predicate IsSlugOutputChar(c: char) { IsLowerLetter(c) || IsDigit(c) || c == '_' || c == '-' }

  predicate NoDoubleDash(s: string) {
    forall i :: 0 <= i < |s| - 1 ==> !(s[i] == '-' && s[i + 1] == '-')
  }

  predicate NotUpper(c: char) { !IsUpper(c) }

  /**
   * `slugify`: lower-case, trim, turn white-space runs into `-`, drop every
   * character outside `[\w-]`, then turn runs of `-` into a single `-`
   * (`/--+/` and "every run of `-`" agree, since a run of one is already one).
   */
  function Slugify(text: string): string {
    var lowered := ToLower(text);
    var trimmed := Trim(lowered);
    var dashed := ReplaceRuns(trimmed, IsSpace, '-');
    var kept := Filter(dashed, IsSlugChar);
    ReplaceRuns(kept, IsDash, '-')
  }

  /** A slug has only characters of `[a-z0-9_-]`. */
  lemma SlugifyChars(text: string)
    ensures AllChars(Slugify(text), IsSlugOutputChar)
  {
    var lowered := ToLower(text);
    var trimmed := Trim(lowered);
    var dashed := ReplaceRuns(trimmed, IsSpace, '-');
    var kept := Filter(dashed, IsSlugChar);
    assert AllChars(lowered, NotUpper);
    TrimKeeps(lowered, NotUpper);
    ReplaceRunsKeeps(trimmed, IsSpace, '-', NotUpper);
    assert AllChars(kept, NotUpper) && AllChars(kept, IsSlugChar);
    ReplaceRunsKeeps(kept, IsDash, '-', NotUpper);
    ReplaceRunsKeeps(kept, IsDash, '-', IsSlugChar);
  }

  /** A slug never has two `-` in a row. */
  lemma SlugifyNoDoubleDash(text: string)
    ensures NoDoubleDash(Slugify(text))
  {
    var kept := Filter(ReplaceRuns(Trim(ToLower(text)), IsSpace, '-'), IsSlugChar);
    ReplaceRunsSeparated(kept, IsDash, '-');
  }

  /** A slug is its own slug. */
  lemma SlugifyIdempotent(text: string)
    ensures Slugify(Slugify(text)) == Slugify(text)
  {
    var t := Slugify(text);
    SlugifyChars(text);
    SlugifyNoDoubleDash(text);
    assert forall i :: 0 <= i < |t| ==> !IsUpper(t[i]) && !IsSpace(t[i]) && IsSlugChar(t[i]);
    ToLowerNoUpper(t);
    assert Trim(t) == t;
    ReplaceRunsNoMatch(t, IsSpace, '-');
    FilterAll(t, IsSlugChar);
    ReplaceRunsSingletons(t, IsDash, '-');
  }

  /** `text.slice(0, end)` with JavaScript's treatment of a negative `end`. */
  function SliceTo(text: string, end: int): (r: string)
    ensures r == text[..if end < 0 then (if |text| + end < 0 then 0 else |text| + end) else if end < |text| then end else |text|]
  {
    var e := if end < 0 then (if |text| + end < 0 then 0 else |text| + end) else if end < |text| then end else |text|;
    text[..e]
  }

  /** `truncateText`: the text itself when it fits, else its first `maxLength` characters and `...`. */
  function TruncateText(text: string, maxLength: int): (r: string)
    ensures |text| <= maxLength ==> r == text
    ensures maxLength < |text| ==> |r| >= 3
    ensures 0 <= maxLength < |text| ==> |r| == maxLength + 3 && r == text[..maxLength] + "..."
    ensures maxLength < |text| ==> StartsWith(text, r[..|r| - 3]) && r[|r| - 3..] == "..."
  {
    if |text| <= maxLength then text else SliceTo(text, maxLength) + "..."
  }

  /** For a non-negative limit, truncating twice is truncating once. */
  lemma TruncateTextIdempotent(text: string, maxLength: nat)
    ensures TruncateText(TruncateText(text, maxLength), maxLength) == TruncateText(text, maxLength)
  {
    if |text| > maxLength {
      var once := TruncateText(text, maxLength);
      assert once[..maxLength] == text[..maxLength];
    }
  }

  datatype PlaceholderKind = Food | Person | Restaurant

  /** `getPlaceholderImage(type = 'food')`. */
  function PlaceholderImage(kind: PlaceholderKind := Food): string {
    match kind
    case Food => "https://images.unsplash.com/photo-1546069901-ba9599a7e63c?w=800&auto=format&fit=crop&q=60"
    case Person => "https://images.unsplash.com/photo-1580489944761-15a19d654956?w=800&auto=format&fit=crop&q=60"
    case Restaurant => "https://images.unsplash.com/photo-1517248135467-4c7edcad34c4?w=1200&auto=format&fit=crop&q=80"
  }

  /** Without an argument the food placeholder is returned. */
  lemma PlaceholderDefault()
    ensures PlaceholderImage() == PlaceholderImage(Food)
  {
  }
}

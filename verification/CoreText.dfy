/**
 Criterion ids (`core/text.py`).

 `asciiText` below is the label after `fold_az_ascii(label).lower()`; the folding table itself is a
 vocabulary and is not modelled. Everything the id depends on after that point is.
 */
module CoreText {
  import opened Sequences

  const MAX_BASE := 60
  const MAX_ID := 64
  const SLUG_FALLBACK := "meyar"

  predicate AlphaNumeric(c: char) {
    'a' <= c <= 'z' || '0' <= c <= '9'
  }

  predicate IdChar(c: char) {
    AlphaNumeric(c) || c == '_'
  }

  /** What `CriterionIn.id` accepts: 1 to 64 characters over `[a-z0-9_]`. */
  predicate IsCriterionId(s: string) {
    1 <= |s| <= MAX_ID && forall i :: 0 <= i < |s| ==> IdChar(s[i])
  }

  /** Every maximal run of other characters becomes one underscore. */
  function CollapseRuns(s: string, inRun: bool := false): (r: string)
    ensures forall i :: 0 <= i < |r| ==> IdChar(r[i])
  {
    if s == "" then ""
    else if AlphaNumeric(s[0]) then [s[0]] + CollapseRuns(s[1..], false)
    else if inRun then CollapseRuns(s[1..], true)
    else "_" + CollapseRuns(s[1..], true)
  }

  function StripUnderscores(s: string): (r: string)
    ensures forall i :: 0 <= i < |r| ==> r[i] in s
    decreases |s|
  {
    if s == "" then ""
    else if s[0] == '_' then StripUnderscores(s[1..])
    else if s[|s| - 1] == '_' then StripUnderscores(s[..|s| - 1])
    else s
  }

  function Take(s: string, n: nat): string {
    if |s| <= n then s else s[..n]
  }

  function SlugBase(asciiText: string): (base: string)
    ensures 1 <= |base| <= MAX_BASE && forall i :: 0 <= i < |base| ==> IdChar(base[i])
  {
    var stripped := Take(StripUnderscores(CollapseRuns(asciiText)), MAX_BASE);
    if stripped == "" then SLUG_FALLBACK else stripped
  }

  function Digits(n: nat): (s: string)
    ensures |s| >= 1 && forall i :: 0 <= i < |s| ==> '0' <= s[i] <= '9'
  {
    if n < 10 then ["0123456789"[n]] else Digits(n / 10) + ["0123456789"[n % 10]]
  }

  /** The k-th id the loop tries: the base itself, then `base_2`, `base_3`, ... cut to 64 characters. */
  function Candidate(base: string, k: nat): string {
    if k <= 1 then base else Take(base + "_" + Digits(k), MAX_ID)
  }

  ghost predicate IsFirstFree(base: string, used: set<string>, k: nat) {
    k >= 1 && Candidate(base, k) !in used && forall j :: 1 <= j < k ==> Candidate(base, j) in used
  }

  ghost predicate SomeFree(base: string, used: set<string>) {
    exists k: nat :: k >= 1 && Candidate(base, k) !in used
  }

  /** The id the loop settles on; every id is taken exactly when the loop would never stop. */
  ghost function Slug(base: string, used: set<string>): string {
    if exists k: nat :: IsFirstFree(base, used, k) then
      var k: nat :| IsFirstFree(base, used, k);
      Candidate(base, k)
    else ""
  }

  lemma {:induction false} FirstFreeIsLeast(base: string, used: set<string>, first: nat, k: nat)
    requires IsFirstFree(base, used, first) && k >= 1 && Candidate(base, k) !in used
    ensures first <= k
  {
  }

  lemma {:induction false} SlugIs(base: string, used: set<string>, k: nat)
    requires IsFirstFree(base, used, k)
    ensures Slug(base, used) == Candidate(base, k)
  {
    forall k': nat | IsFirstFree(base, used, k')
      ensures k' == k
    {
      FirstFreeIsLeast(base, used, k, k');
      FirstFreeIsLeast(base, used, k', k);
    }
  }

  /**
   `slugify_criterion_label`. The loop stops exactly when some candidate is free (`SlugTerminatesIff`
   says when that is), so that is the precondition; the id it returns is the first free candidate,
   and the batch's reserved ids grow by exactly that id.
   */
  method SlugifyCriterionLabel(asciiText: string, used: set<string>) returns (candidate: string, reserved: set<string>)
    requires SomeFree(SlugBase(asciiText), used)
    ensures candidate == Slug(SlugBase(asciiText), used)
    ensures candidate !in used && IsCriterionId(candidate)
    ensures reserved == used + {candidate}
  {
    var base := SlugBase(asciiText);
    candidate := base;
    var suffix := 2;
    ghost var free: nat :| free >= 1 && Candidate(base, free) !in used;
    while candidate in used
      invariant suffix >= 2 && candidate == Candidate(base, suffix - 1)
      invariant forall j :: 1 <= j < suffix - 1 ==> Candidate(base, j) in used
      decreases free - suffix
    {
      candidate := Take(base + "_" + Digits(suffix), MAX_ID);
      suffix := suffix + 1;
    }
    SlugIs(base, used, suffix - 1);
    CandidateIsId(base, suffix - 1);
    reserved := used + {candidate};
  }

  lemma {:induction false} CandidateIsId(base: string, k: nat)
    requires 1 <= |base| <= MAX_BASE && forall i :: 0 <= i < |base| ==> IdChar(base[i])
    ensures IsCriterionId(Candidate(base, k))
  {
  }

  // ------------------------------------------------------------------ what the base keeps of the label

  /** The letters and digits of a text, in order. */
  function Letters(s: string): string {
    if s == "" then "" else (if AlphaNumeric(s[0]) then [s[0]] else "") + Letters(s[1..])
  }

  lemma {:induction false} LettersOfNext(c: char, s: string)
    ensures Letters([c] + s) == (if AlphaNumeric(c) then [c] else "") + Letters(s)
  {
    assert ([c] + s)[1..] == s;
  }

  lemma {:induction false} LettersOfParts(a: string, b: string)
    ensures Letters(a + b) == Letters(a) + Letters(b)
  {
    if a == "" {
      assert a + b == b;
    } else {
      var rest := a[1..];
      LettersOfParts(rest, b);
      LettersOfNext(a[0], rest);
      LettersOfNext(a[0], rest + b);
      assert a == [a[0]] + rest && a + b == [a[0]] + (rest + b);
      hide Letters;
    }
  }

  /** Single underscores only: no two stand side by side, and none follows a run that is already marked. */
  predicate SingleUnderscores(s: string) {
    forall i :: 0 < i < |s| ==> !(s[i - 1] == '_' && s[i] == '_')
  }

  lemma {:induction false} CollapseKeeps(s: string, inRun: bool)
    ensures var r := CollapseRuns(s, inRun);
      Letters(r) == Letters(s) && SingleUnderscores(r) && (inRun && r != "" ==> r[0] != '_')
  {
    if s != "" {
      var rest := CollapseRuns(s[1..], !AlphaNumeric(s[0]));
      CollapseKeeps(s[1..], !AlphaNumeric(s[0]));
      if AlphaNumeric(s[0]) {
        LettersOfParts([s[0]], rest);
        assert Letters([s[0]]) == [s[0]];
      } else if !inRun {
        LettersOfParts("_", rest);
        assert Letters("_") == "";
      }
    }
  }

  lemma {:induction false} StripKeeps(s: string)
    requires SingleUnderscores(s)
    ensures var r := StripUnderscores(s);
      && Letters(r) == Letters(s) && SingleUnderscores(r)
      && (r != "" ==> r[0] != '_' && r[|r| - 1] != '_')
    decreases |s|
  {
    if s != "" {
      if s[0] == '_' {
        assert s == "_" + s[1..];
        LettersOfParts("_", s[1..]);
        assert Letters("_") == "";
        StripKeeps(s[1..]);
      } else if s[|s| - 1] == '_' {
        var n := |s| - 1;
        assert s == s[..n] + "_";
        LettersOfParts(s[..n], "_");
        assert Letters("_") == "";
        StripKeeps(s[..n]);
      }
    }
  }

  lemma {:induction false} NoLetters(s: string)
    requires Letters(s) == "" && SingleUnderscores(s) && (s != "" ==> s[0] != '_') && forall i :: 0 <= i < |s| ==> IdChar(s[i])
    ensures s == ""
  {
  }

  /**
   The base of an id is the label's letters and digits in order, with one underscore for every gap between
   them, cut to 60 characters; only a label without any of them falls back to a fixed word.
   */
  lemma {:induction false} BaseKeepsTheLetters(text: string)
    ensures Letters(text) == "" ==> SlugBase(text) == SLUG_FALLBACK
    ensures Letters(text) != "" ==>
      SlugBase(text)[0] != '_' && SingleUnderscores(SlugBase(text)) && Letters(SlugBase(text)) <= Letters(text)
    ensures Letters(text) != "" && |SlugBase(text)| != MAX_BASE ==>
      Letters(SlugBase(text)) == Letters(text) && SlugBase(text)[|SlugBase(text)| - 1] != '_'
  {
    var collapsed := CollapseRuns(text);
    var stripped := StripUnderscores(collapsed);
    CollapseKeeps(text, false);
    StripKeeps(collapsed);
    if Letters(text) == "" {
      NoLetters(stripped);
    } else {
      assert stripped != "";
      var base := Take(stripped, MAX_BASE);
      assert stripped == base + stripped[|base|..];
      LettersOfParts(base, stripped[|base|..]);
    }
  }

  // ------------------------------------------------------------------ decimal numerals

  function Pow10(n: nat): (p: nat)
    ensures p >= 1
  {
    if n == 0 then 1 else 10 * Pow10(n - 1)
  }

  function Numeral(s: string): nat
    requires forall i :: 0 <= i < |s| ==> '0' <= s[i] <= '9'
  {
    if s == "" then 0 else 10 * Numeral(s[..|s| - 1]) + (s[|s| - 1] - '0') as nat
  }

  lemma {:induction false} NumeralOfDigits(n: nat)
    ensures Numeral(Digits(n)) == n
  {
    if n < 10 {
      var s := Digits(n);
      assert s[..|s| - 1] == "";
      assert Numeral("") == 0;
    } else {
      NumeralOfDigits(n / 10);
      LastDigit(Digits(n / 10), n % 10);
    }
  }

  lemma {:induction false} LastDigit(s: string, d: nat)
    requires d < 10 && forall i :: 0 <= i < |s| ==> '0' <= s[i] <= '9'
    ensures Numeral(s + ["0123456789"[d]]) == 10 * Numeral(s) + d
  {
    assert (s + ["0123456789"[d]])[..|s|] == s;
  }

  lemma {:induction false} DigitCount(n: nat, width: nat)
    requires width >= 1
    ensures |Digits(n)| <= width <==> n < Pow10(width)
  {
    if n >= 10 && width >= 2 {
      DigitCount(n / 10, width - 1);
    } else if n < 10 {
      assert Pow10(width) >= 10;
    } else {
      assert Pow10(1) == 10 * Pow10(0);
    }
  }

  // ------------------------------------------------------------------ termination, exactly

  /** How many different ids the loop can ever try for this base. */
  function Room(base: string): nat
    requires |base| <= MAX_BASE
  {
    Pow10(MAX_ID - 1 - |base|) - 1
  }

  lemma {:induction false} Pow10Grows(m: nat, n: nat)
    requires m <= n
    ensures Pow10(m) <= Pow10(n)
  {
    if m < n {
      Pow10Grows(m, n - 1);
    }
  }

  lemma {:induction false} RoomIsAtLeast999(base: string)
    requires |base| <= MAX_BASE
    ensures Room(base) >= 999 && (|base| == MAX_BASE ==> Room(base) == 999)
  {
    Pow10Grows(3, MAX_ID - 1 - |base|);
    assert Pow10(3) == 10 * Pow10(2) == 100 * Pow10(1) == 1000 * Pow10(0);
  }

  /** Inside the room nothing is cut, so the candidates are pairwise different. */
  lemma {:induction false} CandidatesDistinct(base: string, i: nat, j: nat)
    requires |base| <= MAX_BASE && 1 <= i < j <= Room(base)
    ensures Candidate(base, i) != Candidate(base, j)
  {
    var width := MAX_ID - 1 - |base|;
    DigitCount(i, width);
    DigitCount(j, width);
    var cj := base + "_" + Digits(j);
    assert Candidate(base, j) == cj;
    if i > 1 {
      var ci := base + "_" + Digits(i);
      assert Candidate(base, i) == ci;
      NumeralOfDigits(i);
      NumeralOfDigits(j);
      assert ci[|base| + 1..] == Digits(i) && cj[|base| + 1..] == Digits(j);
    }
  }

  /** Past the room the cut drops the last digit: the candidate repeats an earlier one. */
  lemma {:induction false} TruncatedCandidateRepeats(base: string, k: nat)
    requires 1 <= |base| <= MAX_BASE && k > Room(base)
    ensures 1 <= k / 10 < k && Candidate(base, k) == Candidate(base, k / 10)
  {
    RoomIsAtLeast999(base);
    var width := MAX_ID - 1 - |base|;
    DigitCount(k, width);
    assert Digits(k) == Digits(k / 10) + ["0123456789"[k % 10]];
    var long := base + "_" + Digits(k);
    var short := base + "_" + Digits(k / 10);
    assert long == short + ["0123456789"[k % 10]];
    assert |short| >= MAX_ID && long[..MAX_ID] == short[..MAX_ID];
  }

  lemma {:induction false} EveryCandidateIsInTheRoom(base: string, k: nat) returns (k': nat)
    requires 1 <= |base| <= MAX_BASE && k >= 1
    ensures 1 <= k' <= Room(base) && Candidate(base, k') == Candidate(base, k)
  {
    if k <= Room(base) {
      k' := k;
    } else {
      TruncatedCandidateRepeats(base, k);
      k' := EveryCandidateIsInTheRoom(base, k / 10);
    }
  }

  /** The loop stops if and only if one of its first `Room(base)` candidates is free. */
  lemma {:induction false} SlugTerminatesIff(base: string, used: set<string>)
    requires 1 <= |base| <= MAX_BASE
    ensures SomeFree(base, used) <==> exists k: nat :: 1 <= k <= Room(base) && Candidate(base, k) !in used
  {
    if SomeFree(base, used) {
      var k: nat :| k >= 1 && Candidate(base, k) !in used;
      var k' := EveryCandidateIsInTheRoom(base, k);
    }
  }

  ghost function FirstCandidates(base: string, n: nat): (all: set<string>)
    ensures forall c :: c in all <==> exists k: nat :: 1 <= k <= n && c == Candidate(base, k)
  {
    if n == 0 then {} else FirstCandidates(base, n - 1) + {Candidate(base, n)}
  }

  lemma {:induction false} FirstCandidatesSize(base: string, n: nat)
    requires |base| <= MAX_BASE && n <= Room(base)
    ensures |FirstCandidates(base, n)| == n
  {
    if n > 0 {
      FirstCandidatesSize(base, n - 1);
      forall k: nat | 1 <= k <= n - 1
        ensures Candidate(base, k) != Candidate(base, n)
      {
        CandidatesDistinct(base, k, n);
      }
    }
  }

  /** With fewer than 999 reserved ids the loop stops, within one more try than there are ids. */
  lemma {:induction false} SlugStopsEarly(base: string, used: set<string>)
    requires 1 <= |base| <= MAX_BASE && |used| < 999
    ensures exists k: nat :: k <= |used| + 1 && IsFirstFree(base, used, k)
  {
    var n := |used| + 1;
    RoomIsAtLeast999(base);
    FirstCandidatesSize(base, n);
    if FirstCandidates(base, n) <= used {
      SubsetSize(FirstCandidates(base, n), used);
      assert false;
    }
    var c :| c in FirstCandidates(base, n) && c !in used;
    var k: nat :| 1 <= k <= n && c == Candidate(base, k);
    var first := LeastFree(base, used, k);
  }

  lemma {:induction false} LeastFree(base: string, used: set<string>, k: nat) returns (first: nat)
    requires k >= 1 && Candidate(base, k) !in used
    ensures first <= k && IsFirstFree(base, used, first)
  {
    if j: nat :| 1 <= j < k && Candidate(base, j) !in used {
      first := LeastFree(base, used, j);
    } else {
      first := k;
    }
  }

  /** The bound is tight: 999 reserved ids can exhaust a 60-character base, and then nothing is free. */
  lemma {:induction false} SlugCanBeExhausted(base: string)
    requires |base| == MAX_BASE
    ensures |FirstCandidates(base, 999)| == 999 && !SomeFree(base, FirstCandidates(base, 999))
  {
    RoomIsAtLeast999(base);
    FirstCandidatesSize(base, 999);
    SlugTerminatesIff(base, FirstCandidates(base, 999));
  }

  lemma {:induction false} SlugIsFresh(asciiText: string, used: set<string>)
    requires |used| < 999
    ensures Slug(SlugBase(asciiText), used) !in used && IsCriterionId(Slug(SlugBase(asciiText), used))
    ensures SomeFree(SlugBase(asciiText), used)
  {
    var base := SlugBase(asciiText);
    SlugStopsEarly(base, used);
    var k: nat :| IsFirstFree(base, used, k);
    SlugIs(base, used, k);
    CandidateIsId(base, k);
  }

  // ------------------------------------------------------------------ level normalization

  predicate IsSpace(c: char) {
    c == ' ' || c == '\t' || c == '\n' || c == '\r'
  }

  function Strip(s: string): (r: string)
    ensures r == "" || (!IsSpace(r[0]) && !IsSpace(r[|r| - 1]))
    decreases |s|
  {
    if s == "" then ""
    else if IsSpace(s[0]) then Strip(s[1..])
    else if IsSpace(s[|s| - 1]) then Strip(s[..|s| - 1])
    else s
  }

  function UpperChar(c: char): char {
    if 'a' <= c <= 'z' then c - 'a' + 'A' else c
  }

  function Upper(s: string): (r: string)
    ensures |r| == |s| && forall i :: 0 <= i < |s| ==> r[i] == UpperChar(s[i])
  {
    seq(|s|, i requires 0 <= i < |s| => UpperChar(s[i]))
  }

  /** `level.strip().upper()`. */
  function UpperStrip(s: string): string {
    Upper(Strip(s))
  }

  predicate AllSpace(s: string) {
    forall i :: 0 <= i < |s| ==> IsSpace(s[i])
  }

  /** Only white space is stripped. */
  lemma {:induction false} StripIsMiddle(s: string) returns (before: string, after: string)
    ensures s == before + Strip(s) + after && AllSpace(before) && AllSpace(after)
    decreases |s|
  {
    before, after := "", "";
    if s != "" {
      var n := |s| - 1;
      var middle := Strip(s);
      if IsSpace(s[0]) {
        var b, a := StripIsMiddle(s[1..]);
        assert s == [s[0]] + s[1..] && middle == Strip(s[1..]);
        hide *;
        Regrouped([s[0]], b, middle, a);
        before, after := [s[0]] + b, a;
        SpaceBefore(s[0], b);
      } else if IsSpace(s[n]) {
        var b, a := StripIsMiddle(s[..n]);
        assert s == s[..n] + [s[n]] && middle == Strip(s[..n]);
        hide *;
        Regrouped(b, middle, a, [s[n]]);
        before, after := b, a + [s[n]];
        SpaceAfter(a, s[n]);
      }
    }
  }

  lemma {:induction false} Regrouped(a: string, b: string, c: string, d: string)
    ensures a + (b + c + d) == (a + b) + c + d && (a + b + c) + d == a + b + (c + d)
  {
  }

  lemma {:induction false} SpaceBefore(c: char, s: string)
    requires IsSpace(c) && AllSpace(s)
    ensures AllSpace([c] + s)
  {
  }

  lemma {:induction false} SpaceAfter(s: string, c: char)
    requires IsSpace(c) && AllSpace(s)
    ensures AllSpace(s + [c])
  {
  }

  /** Small letters become capitals and nothing else changes. */
  predicate Capitalizes(before: string, after: string) {
    && |after| == |before|
    && forall k :: 0 <= k < |before| ==>
         if 'a' <= before[k] <= 'z' then 'A' <= after[k] <= 'Z' && after[k] as int == before[k] as int - 32 else after[k] == before[k]
  }

  /** A normalized level is the level without its outer white space, in capitals. */
  lemma {:induction false} UpperStripIsUpper(s: string) returns (before: string, level: string, after: string)
    ensures s == before + level + after && AllSpace(before) && AllSpace(after)
    ensures level != "" ==> !IsSpace(level[0]) && !IsSpace(level[|level| - 1])
    ensures Capitalizes(level, UpperStrip(s))
  {
    before, after := StripIsMiddle(s);
    level := Strip(s);
  }

  lemma {:induction false} UpperStripIdempotent(s: string)
    ensures UpperStrip(UpperStrip(s)) == UpperStrip(s)
  {
    var t := Upper(Strip(s));
    assert Strip(t) == t;
    assert Upper(t) == t;
  }

  // ------------------------------------------------------------------ whitespace

  /** `" ".join(s.split())`. */
  function JoinWords(s: string): (r: string)
    decreases |s|
  {
    if s == "" then ""
    else if IsSpace(s[0]) then JoinWords(s[1..])
    else
      var n := WordLength(s);
      var rest := JoinWords(s[n..]);
      if rest == "" then s[..n] else s[..n] + " " + rest
  }

  function WordLength(s: string): (n: nat)
    requires s != "" && !IsSpace(s[0])
    ensures 1 <= n <= |s|
  {
    if |s| == 1 || IsSpace(s[1]) then 1 else 1 + WordLength(s[1..])
  }

  /** The words of a text, the first of them continuing `word`. */
  function Words(s: string, word: string := ""): seq<string> {
    if s == "" then (if word == "" then [] else [word])
    else if IsSpace(s[0]) then (if word == "" then [] else [word]) + Words(s[1..])
    else Words(s[1..], word + [s[0]])
  }

  lemma {:induction false} WordsOfWord(w: string, rest: string, word: string)
    requires forall i :: 0 <= i < |w| ==> !IsSpace(w[i])
    ensures Words(w + rest, word) == Words(rest, word + w)
  {
    if w == "" {
      assert w + rest == rest && word + w == word;
    } else {
      assert (w + rest)[0] == w[0] && (w + rest)[1..] == w[1..] + rest;
      WordsOfWord(w[1..], rest, word + [w[0]]);
      assert word + [w[0]] + w[1..] == word + w;
    }
  }

  lemma {:induction false} WordEnds(s: string)
    requires s != "" && !IsSpace(s[0])
    ensures forall i :: 0 <= i < WordLength(s) ==> !IsSpace(s[i])
    ensures WordLength(s) == |s| || IsSpace(s[WordLength(s)])
  {
    if !(|s| == 1 || IsSpace(s[1])) {
      WordEnds(s[1..]);
      assert forall i :: 1 <= i < WordLength(s) ==> s[i] == s[1..][i - 1];
    }
  }

  /** One blank between two words, none at the ends. */
  predicate SingleSpaced(s: string) {
    && (forall i :: 0 <= i < |s| && IsSpace(s[i]) ==> s[i] == ' ' && 0 < i < |s| - 1)
    && forall i :: 0 < i < |s| && IsSpace(s[i]) ==> !IsSpace(s[i - 1])
  }

  /** Joining a text's words keeps the words and makes the space between them one blank. */
  lemma {:induction false} JoinedWordsAreTheWords(s: string)
    ensures Words(JoinWords(s)) == Words(s) && SingleSpaced(JoinWords(s))
    decreases |s|
  {
    if s != "" {
      if IsSpace(s[0]) {
        JoinedWordsAreTheWords(s[1..]);
      } else {
        var n := WordLength(s);
        WordEnds(s);
        JoinedWordsAreTheWords(s[n..]);
        JoinOne(s[..n], s[n..], JoinWords(s[n..]));
        assert s[..n] + s[n..] == s;
      }
    }
  }

  lemma {:induction false} JoinOne(w: string, rest: string, joined: string)
    requires w != "" && (forall i :: 0 <= i < |w| ==> !IsSpace(w[i])) && (rest == "" || IsSpace(rest[0]))
    requires Words(joined) == Words(rest) && SingleSpaced(joined)
    ensures var r := if joined == "" then w else w + " " + joined;
      Words(r) == Words(w + rest) && SingleSpaced(r)
  {
    WordsOfWord(w, rest, "");
    assert "" + w == w;
    assert Words(rest, w) == [w] + Words(rest) by {
      if rest != "" { assert Words(rest) == Words(rest[1..]); }
    }
    if joined == "" {
      WordsOfWord(w, "", "");
      assert w + "" == w;
    } else {
      WordsOfWord(w, " " + joined, "");
      assert w + " " + joined == w + (" " + joined) && (" " + joined)[1..] == joined;
    }
  }
}

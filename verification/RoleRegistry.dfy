/**
 One owner for every word of the source (`_role_registry` of `agent/semantic_requirements.py`): claims
 are made in a fixed order and a claim on text already taken is dropped.
 */
module RoleRegistry {
  import opened Wrappers
  import opened Segmentation
  import opened MaterialSpans
  import D = DraftSchemas

  datatype Role =
    | ControlResultCount | ProtectedCue | Subject | Duration | Proficiency | ModalityRole | Relation
    | Connective | Quantity | GenericNoun | Preamble | OtherRole

  datatype Owner = WorkflowControl | OwnedByState(state: D.SpanState) | NonRequirementText

  datatype Claim = Claim(start: nat, end: nat, role: Role, owner: Owner, span: Option<nat>)

  /** One analysed span with the exact occurrences its reading points at. */
  datatype Item = Item(
    id: nat, start: nat, end: nat, state: D.SpanState,
    subject: Option<Range>, quantifierOnly: bool, duration: Option<Range>, proficiency: Option<Range>, modality: Option<Range>)

  /** Word, non-blank and relation matches of a text, in order, and the role of a word. */
  datatype Words = Words(words: string -> seq<Range>, chunks: string -> seq<Range>, relations: string -> seq<Range>, roleOf: string -> Role)

  predicate Taken(claims: seq<Claim>, start: nat, end: nat) {
    exists c :: c in claims && c.start < end && start < c.end
  }

  /** `add`: empty claims and claims on taken text are dropped. */
  function Added(claims: seq<Claim>, c: Claim): seq<Claim> {
    if c.start >= c.end || Taken(claims, c.start, c.end) then claims else claims + [c]
  }

  /** The registry after the offers from the k-th on. */
  function Registered(claims: seq<Claim>, offers: seq<Claim>, k: nat := 0): seq<Claim>
    requires k <= |offers|
    decreases |offers| - k
  {
    if k == |offers| then claims else Registered(Added(claims, offers[k]), offers, k + 1)
  }

  // ------------------------------------------------------------------ who claims what, in order

  function Offers(rs: seq<Range>, at: nat, role: Role, owner: Owner, span: Option<nat>): (r: seq<Claim>)
    ensures |r| == |rs| && forall i :: 0 <= i < |rs| ==> r[i] == Claim(at + rs[i].0, at + rs[i].1, role, owner, span)
  {
    seq(|rs|, i requires 0 <= i < |rs| => Claim(at + rs[i].0, at + rs[i].1, role, owner, span))
  }

  function WordOffers(w: Words, text: string, from: nat, end: nat, owner: Owner, span: Option<nat>): (r: seq<Claim>)
    requires from <= end <= |text|
    ensures var rs := w.words(text[from..end]);
      |r| == |rs| && forall i :: 0 <= i < |rs| ==> r[i].start == from + rs[i].0 && r[i].end == from + rs[i].1 && r[i].owner == owner && r[i].span == span
  {
    var rs := w.words(text[from..end]);
    seq(|rs|, i requires 0 <= i < |rs| =>
      Claim(from + rs[i].0, from + rs[i].1, w.roleOf(if rs[i].0 <= rs[i].1 <= end - from then text[from..end][rs[i].0..rs[i].1] else ""), owner, span))
  }

  function OccurrenceOffer(r: Option<Range>, role: Role, owner: Owner, span: Option<nat>): seq<Claim> {
    if r.Some? then [Claim(r.value.0, r.value.1, role, owner, span)] else []
  }

  function ItemOffers(w: Words, text: string, x: Item): seq<Claim>
    requires x.start <= x.end <= |text|
  {
    var owner, local := OwnedByState(x.state), text[x.start..x.end];
    if x.state == D.Prohibited then Offers(w.chunks(local), x.start, ProtectedCue, owner, Some(x.id))
    else
      OccurrenceOffer(if x.state != D.Scorable && x.quantifierOnly then None else x.subject, Subject, owner, Some(x.id))
      + OccurrenceOffer(x.duration, Duration, owner, Some(x.id))
      + OccurrenceOffer(x.proficiency, Proficiency, owner, Some(x.id))
      + OccurrenceOffer(x.modality, ModalityRole, owner, Some(x.id))
      + Offers(w.relations(local), x.start, Relation, owner, Some(x.id))
      + WordOffers(w, text, x.start, x.end, owner, Some(x.id))
  }

  predicate ItemsFit(text: string, items: seq<Item>) {
    forall i :: 0 <= i < |items| ==> items[i].start <= items[i].end <= |text|
  }

  function ItemsOffers(w: Words, text: string, items: seq<Item>, k: nat := 0): seq<Claim>
    requires k <= |items| && ItemsFit(text, items)
    decreases |items| - k
  {
    if k == |items| then [] else ItemOffers(w, text, items[k]) + ItemsOffers(w, text, items, k + 1)
  }

  /** Result-count wording first, then the spans one by one, then every word that nobody has claimed. */
  function AllOffers(w: Words, text: string, items: seq<Item>, controls: seq<Range>): seq<Claim>
    requires ItemsFit(text, items)
  {
    Offers(controls, 0, ControlResultCount, WorkflowControl, None)
    + ItemsOffers(w, text, items)
    + WordOffers(w, text, 0, |text|, NonRequirementText, None)
  }

  // ------------------------------------------------------------------ the sorted registry

  predicate Before(a: Claim, b: Claim) {
    a.start < b.start || (a.start == b.start && a.end < b.end)
  }

  /** Insert by start and end, after equals, as a stable sort does. */
  function Inserted(sorted: seq<Claim>, c: Claim): seq<Claim> {
    if sorted == [] || !Before(c, sorted[|sorted| - 1]) then sorted + [c]
    else Inserted(sorted[..|sorted| - 1], c) + [sorted[|sorted| - 1]]
  }

  function SortedClaims(claims: seq<Claim>): seq<Claim> {
    if claims == [] then [] else Inserted(SortedClaims(claims[..|claims| - 1]), claims[|claims| - 1])
  }

  lemma {:induction false} InsertedIsPermutation(sorted: seq<Claim>, c: Claim)
    ensures multiset(Inserted(sorted, c)) == multiset(sorted) + multiset{c}
  {
    if sorted != [] && Before(c, sorted[|sorted| - 1]) {
      var n := |sorted| - 1;
      InsertedIsPermutation(sorted[..n], c);
      assert sorted == sorted[..n] + [sorted[n]];
    }
  }

  /** Sorting loses nothing and invents nothing. */
  lemma {:induction false} SortedIsPermutation(claims: seq<Claim>)
    ensures multiset(SortedClaims(claims)) == multiset(claims)
  {
    hide Inserted;
    if claims != [] {
      var n := |claims| - 1;
      SortedIsPermutation(claims[..n]);
      InsertedIsPermutation(SortedClaims(claims[..n]), claims[n]);
      assert claims == claims[..n] + [claims[n]];
    }
  }

  predicate Apart(a: Claim, b: Claim) {
    a.end <= b.start || b.end <= a.start
  }

  predicate PairwiseApart(claims: seq<Claim>) {
    && (forall i :: 0 <= i < |claims| ==> claims[i].start < claims[i].end)
    && forall i, j :: 0 <= i < j < |claims| ==> Apart(claims[i], claims[j])
  }

  /** One after the other, none overlapping the next. */
  predicate InSequence(claims: seq<Claim>) {
    && (forall i :: 0 <= i < |claims| ==> claims[i].start < claims[i].end)
    && forall i, j :: 0 <= i < j < |claims| ==> claims[i].end <= claims[j].start
  }

  lemma {:induction false} RegisteredApart(claims: seq<Claim>, offers: seq<Claim>, k: nat := 0)
    requires k <= |offers| && PairwiseApart(claims)
    ensures PairwiseApart(Registered(claims, offers, k))
    decreases |offers| - k
  {
    if k < |offers| {
      var next := Added(claims, offers[k]);
      if next != claims {
        forall i | 0 <= i < |claims| ensures Apart(claims[i], offers[k]) { assert claims[i] in claims; }
      }
      assert PairwiseApart(next);
      RegisteredApart(next, offers, k + 1);
    }
  }

  /** A registered claim stays registered, and only offers are ever registered. */
  lemma {:induction false} RegisteredKeeps(claims: seq<Claim>, offers: seq<Claim>, k: nat := 0)
    requires k <= |offers|
    ensures forall c :: c in claims ==> c in Registered(claims, offers, k)
    ensures forall c :: c in Registered(claims, offers, k) ==> c in claims || c in offers
    decreases |offers| - k
  {
    if k < |offers| {
      RegisteredKeeps(Added(claims, offers[k]), offers, k + 1);
    }
  }

  /** Every non-empty offer ends up with its text claimed, by itself or by an earlier claim. */
  lemma {:induction false} OfferedIsTaken(claims: seq<Claim>, offers: seq<Claim>, i: nat, k: nat := 0)
    requires k <= i < |offers| && offers[i].start < offers[i].end
    ensures Taken(Registered(claims, offers, k), offers[i].start, offers[i].end)
    decreases |offers| - k
  {
    var next := Added(claims, offers[k]);
    if i == k {
      RegisteredKeeps(next, offers, k + 1);
      if Taken(claims, offers[k].start, offers[k].end) {
        var c :| c in claims && c.start < offers[k].end && offers[k].start < c.end;
        assert c in Registered(next, offers, k + 1);
      } else {
        assert offers[k] in next;
      }
    } else {
      OfferedIsTaken(next, offers, i, k + 1);
    }
  }

  lemma {:induction false} AfterLast(sorted: seq<Claim>, c: Claim)
    requires InSequence(sorted) && c.start < c.end && (sorted == [] || sorted[|sorted| - 1].end <= c.start)
    ensures InSequence(sorted + [c])
  {
  }

  /** A claim that overlaps none of a sequence can be put in its place. */
  lemma {:induction false} InsertedInSequence(sorted: seq<Claim>, c: Claim)
    requires InSequence(sorted) && c.start < c.end && forall i :: 0 <= i < |sorted| ==> Apart(sorted[i], c)
    ensures InSequence(Inserted(sorted, c)) && Inserted(sorted, c) != []
    ensures forall x :: x in Inserted(sorted, c) <==> x in sorted || x == c
    ensures var r := Inserted(sorted, c); r[|r| - 1] == c || (sorted != [] && r[|r| - 1] == sorted[|sorted| - 1])
  {
    hide InSequence;
    if sorted != [] { LastOf(sorted); assert Apart(sorted[|sorted| - 1], c); }
    if sorted == [] || !Before(c, sorted[|sorted| - 1]) {
      AfterLast(sorted, c);
    } else {
      var n := |sorted| - 1;
      var last, front := sorted[n], sorted[..n];
      assert forall i :: 0 <= i < |front| ==> front[i] == sorted[i];
      InsertedInSequence(front, c);
      hide Apart;
      AfterLast(Inserted(front, c), last);
      assert sorted == front + [last];
    }
  }

  lemma {:induction false} LastOf(sorted: seq<Claim>)
    requires InSequence(sorted) && sorted != []
    ensures var n := |sorted| - 1;
      && InSequence(sorted[..n]) && sorted[n].start < sorted[n].end
      && (n > 0 ==> sorted[..n][n - 1].end <= sorted[n].start)
  {
  }

  lemma {:induction false} SortedInSequence(claims: seq<Claim>)
    requires PairwiseApart(claims)
    ensures InSequence(SortedClaims(claims))
    ensures forall x :: x in SortedClaims(claims) <==> x in claims
  {
    if claims != [] {
      hide InSequence, Inserted, PairwiseApart, Apart;
      var front, c := claims[..|claims| - 1], claims[|claims| - 1];
      assert claims == front + [c];
      PrefixApart(front, c);
      SortedInSequence(front);
      ApartFromMembers(front, c, SortedClaims(front));
      InsertedInSequence(SortedClaims(front), c);
    }
  }

  lemma {:induction false} PrefixApart(front: seq<Claim>, c: Claim)
    requires PairwiseApart(front + [c])
    ensures PairwiseApart(front) && c.start < c.end
    ensures forall i :: 0 <= i < |front| ==> Apart(front[i], c)
  {
    var all := front + [c];
    assert all[|front|] == c && forall i :: 0 <= i < |front| ==> all[i] == front[i];
  }

  lemma {:induction false} ApartFromMembers(front: seq<Claim>, c: Claim, s: seq<Claim>)
    requires forall i :: 0 <= i < |front| ==> Apart(front[i], c)
    requires forall x :: x in s <==> x in front
    ensures forall i :: 0 <= i < |s| ==> Apart(s[i], c)
  {
    forall i | 0 <= i < |s| ensures Apart(s[i], c) {
      assert s[i] in s && s[i] in front;
    }
  }

  // ------------------------------------------------------------------ the loops

  datatype OwnershipOverlap = OwnershipOverlap

  /** The loops that offer one list of claims after another. */
  method Offer(claims: seq<Claim>, offers: seq<Claim>) returns (r: seq<Claim>)
    ensures r == Registered(claims, offers)
  {
    r := claims;
    for k := 0 to |offers|
      invariant Registered(claims, offers) == Registered(r, offers, k)
    {
      var c := offers[k];
      if c.start < c.end && !exists x :: x in r && x.start < c.end && c.start < x.end {
        r := r + [c];
      }
    }
  }

  lemma {:induction false} OffersChain(claims: seq<Claim>, a: seq<Claim>, b: seq<Claim>, k: nat := 0)
    requires k <= |a|
    ensures Registered(claims, a + b, k) == Registered(Registered(claims, a, k), b)
    decreases |a| - k
  {
    if k < |a| {
      OffersChain(Added(claims, a[k]), a, b, k + 1);
    } else {
      OffersShift(claims, a, b, 0);
    }
  }

  lemma {:induction false} OffersShift(claims: seq<Claim>, a: seq<Claim>, b: seq<Claim>, k: nat)
    requires k <= |b|
    ensures Registered(claims, a + b, |a| + k) == Registered(claims, b, k)
    decreases |b| - k
  {
    if k < |b| {
      assert (a + b)[|a| + k] == b[k];
      OffersShift(Added(claims, b[k]), a, b, k + 1);
    }
  }

  /** `_role_registry`. */
  method BuildRoleRegistry(
      w: Words, text: string, items: seq<Item>, controls: seq<Range>) returns (r: Result<seq<Claim>, OwnershipOverlap>)
    requires ItemsFit(text, items)
    ensures r.Ok? && r.value == SortedClaims(Registered([], AllOffers(w, text, items, controls)))
    ensures InSequence(r.value)
  {
    hide ItemOffers, Registered, SortedClaims;
    ghost var first := Offers(controls, 0, ControlResultCount, WorkflowControl, None);
    ghost var rest := WordOffers(w, text, 0, |text|, NonRequirementText, None);
    var claims := Offer([], Offers(controls, 0, ControlResultCount, WorkflowControl, None));
    OffersChain([], first + ItemsOffers(w, text, items), rest);
    OffersChain([], first, ItemsOffers(w, text, items));
    ghost var start := claims;
    for i := 0 to |items|
      invariant Registered(start, ItemsOffers(w, text, items)) == Registered(claims, ItemsOffers(w, text, items, i))
    {
      OffersChain(claims, ItemOffers(w, text, items[i]), ItemsOffers(w, text, items, i + 1));
      claims := Offer(claims, ItemOffers(w, text, items[i]));
    }
    assert Registered(claims, ItemsOffers(w, text, items, |items|)) == claims by { NothingOffered(claims); }
    claims := Offer(claims, WordOffers(w, text, 0, |text|, NonRequirementText, None));
    RegisteredApart([], AllOffers(w, text, items, controls));
    SortedInSequence(claims);
    var ordered := SortedClaims(claims);
    for i := 0 to |ordered| {
      var left := ordered[if i > 0 then i - 1 else i];
      var incompatible := left.owner != ordered[i].owner;
      if i > 0 && left.end > ordered[i].start && incompatible {
        return Err(OwnershipOverlap);
      }
    }
    return Ok(ordered);
  }

  lemma {:induction false} NothingOffered(claims: seq<Claim>)
    ensures Registered(claims, []) == claims
  {
  }

  // ------------------------------------------------------------------ what the registry covers

  /** The regular expressions return non-empty matches in range. */
  ghost predicate WordsOk(w: Words) {
    forall t, r :: r in w.words(t) ==> r.0 < r.1 <= |t|
  }

  /** Every word of the text intersects a claim; no word goes unaccounted for. */
  lemma {:induction false} EveryWordIsClaimed(
      w: Words, text: string, items: seq<Item>, controls: seq<Range>, word: Range)
    requires WordsOk(w) && ItemsFit(text, items) && word in w.words(text)
    ensures Taken(SortedClaims(Registered([], AllOffers(w, text, items, controls))), word.0, word.1)
  {
    var i := WordOffered(w, text, items, controls, word);
    hide AllOffers, Registered, SortedClaims;
    var offers := AllOffers(w, text, items, controls);
    OfferedIsTaken([], offers, i);
    RegisteredApart([], offers);
    SortedInSequence(Registered([], offers));
  }

  lemma {:induction false} WordOfferAt(w: Words, text: string, word: Range) returns (i: nat)
    requires WordsOk(w) && word in w.words(text)
    ensures var rest := WordOffers(w, text, 0, |text|, NonRequirementText, None);
      i < |rest| && rest[i].start == word.0 && rest[i].end == word.1 && word.0 < word.1
  {
    assert text[0..|text|] == text;
    i :| 0 <= i < |w.words(text)| && w.words(text)[i] == word;
  }

  lemma {:induction false} AtTheEnd(a: seq<Claim>, b: seq<Claim>, c: seq<Claim>, i: nat)
    requires i < |c|
    ensures |a| + |b| + i < |a + b + c| && (a + b + c)[|a| + |b| + i] == c[i]
  {
  }

  lemma {:induction false} WordOffered(
      w: Words, text: string, items: seq<Item>, controls: seq<Range>, word: Range) returns (k: nat)
    requires WordsOk(w) && ItemsFit(text, items) && word in w.words(text)
    ensures var offers := AllOffers(w, text, items, controls);
      k < |offers| && offers[k].start == word.0 && offers[k].end == word.1 && word.0 < word.1
  {
    hide WordsOk, WordOffers, ItemsOffers, Offers;
    var i := WordOfferAt(w, text, word);
    var first, middle := Offers(controls, 0, ControlResultCount, WorkflowControl, None), ItemsOffers(w, text, items);
    AtTheEnd(first, middle, WordOffers(w, text, 0, |text|, NonRequirementText, None), i);
    k := |first| + |middle| + i;
  }

  /** Result-count wording is claimed before anything else: only an earlier match of it can take its place. */
  lemma {:induction false} ControlsComeFirst(w: Words, text: string, items: seq<Item>, controls: seq<Range>, i: nat)
    requires ItemsFit(text, items) && i < |controls| && controls[i].0 < controls[i].1
    requires forall j :: 0 <= j < i ==> !Overlap(controls[j], controls[i])
    ensures var registry := Registered([], AllOffers(w, text, items, controls));
      && Claim(controls[i].0, controls[i].1, ControlResultCount, WorkflowControl, None) in registry
      && forall c :: c in registry && c.start < controls[i].1 && controls[i].0 < c.end ==> c.owner == WorkflowControl
  {
    var offers := AllOffers(w, text, items, controls);
    var first := Offers(controls, 0, ControlResultCount, WorkflowControl, None);
    var mine := Claim(controls[i].0, controls[i].1, ControlResultCount, WorkflowControl, None);
    assert forall k :: 0 <= k < |first| ==> offers[k] == first[k];
    var registry := Registered([], offers);
    hide AllOffers, Offers;
    UndisputedIsRegistered([], offers, i);
    RegisteredApart([], offers);
    assert mine in registry;
    forall c | c in registry && c.start < mine.end && mine.start < c.end
      ensures c == mine
    {
      var a :| 0 <= a < |registry| && registry[a] == c;
      var b :| 0 <= b < |registry| && registry[b] == mine;
      assert a != b ==> Apart(registry[a], registry[b]) || Apart(registry[b], registry[a]);
    }
  }

  /** An offer that no earlier offer disputes is registered. */
  lemma {:induction false} UndisputedIsRegistered(claims: seq<Claim>, offers: seq<Claim>, i: nat, k: nat := 0)
    requires k <= i < |offers| && offers[i].start < offers[i].end
    requires !Taken(claims, offers[i].start, offers[i].end)
    requires forall j :: k <= j < i ==> !(offers[j].start < offers[i].end && offers[i].start < offers[j].end)
    ensures offers[i] in Registered(claims, offers, k)
    decreases i - k
  {
    var next := Added(claims, offers[k]);
    if i == k {
      assert offers[i] in next;
      RegisteredKeeps(next, offers, k + 1);
    } else {
      UndisputedIsRegistered(next, offers, i, k + 1);
    }
  }
}

/** What a registered role means: where it comes from, and when an occurrence gets it. */
module RegisteredRoles {
  import opened Wrappers
  import opened Segmentation
  import opened MaterialSpans
  import opened RoleRegistry
  import D = DraftSchemas

  /** Single words only ever get one of the five word roles. */
  ghost predicate WordRoles(w: Words) {
    forall s :: IsWordRole(w.roleOf(s))
  }

  predicate IsWordRole(role: Role) {
    role in {Connective, Quantity, GenericNoun, Preamble, OtherRole}
  }

  /** The occurrence that a span's reading points at for this role; a bare quantifier is no subject under review. */
  function PointedAt(x: Item, role: Role): Option<Range> {
    if x.state == D.Prohibited then None
    else
      match role
      case Subject => if x.state != D.Scorable && x.quantifierOnly then None else x.subject
      case Duration => x.duration
      case Proficiency => x.proficiency
      case ModalityRole => x.modality
      case _ => None
  }

  predicate IsPointer(role: Role) {
    role in {Subject, Duration, Proficiency, ModalityRole}
  }

  predicate BelongsTo(c: Claim, x: Item) {
    c.owner == OwnedByState(x.state) && c.span == Some(x.id)
  }

  /** What a claim with this role must be. */
  predicate MeansRole(items: seq<Item>, controls: seq<Range>, c: Claim) {
    match c.role
    case ControlResultCount => c.owner == WorkflowControl && c.span == None && (c.start, c.end) in controls
    case ProtectedCue => exists x :: x in items && BelongsTo(c, x) && x.state == D.Prohibited
    case Relation => exists x :: x in items && BelongsTo(c, x) && x.state != D.Prohibited
    case Subject => exists x :: x in items && BelongsTo(c, x) && PointedAt(x, Subject) == Some((c.start, c.end))
    case Duration => exists x :: x in items && BelongsTo(c, x) && PointedAt(x, Duration) == Some((c.start, c.end))
    case Proficiency => exists x :: x in items && BelongsTo(c, x) && PointedAt(x, Proficiency) == Some((c.start, c.end))
    case ModalityRole => exists x :: x in items && BelongsTo(c, x) && PointedAt(x, ModalityRole) == Some((c.start, c.end))
    case _ => (c.owner == NonRequirementText && c.span == None) || exists x :: x in items && BelongsTo(c, x) && x.state != D.Prohibited
  }

  lemma {:induction false} WordRoleOf(w: Words, s: string)
    requires WordRoles(w)
    ensures IsWordRole(w.roleOf(s))
  {
  }

  lemma {:induction false} WordsMean(
      w: Words, text: string, from: nat, end: nat, owner: Owner, span: Option<nat>)
    requires WordRoles(w) && from <= end <= |text|
    ensures forall c :: c in WordOffers(w, text, from, end, owner, span) ==>
      IsWordRole(c.role) && c.owner == owner && c.span == span
  {
    var offers := WordOffers(w, text, from, end, owner, span);
    forall c | c in offers
      ensures IsWordRole(c.role) && c.owner == owner && c.span == span
    {
      var i :| 0 <= i < |offers| && offers[i] == c;
      var local := text[from..end];
      var r := w.words(local)[i];
      var word := if r.0 <= r.1 <= end - from then local[r.0..r.1] else "";
      WordRoleOf(w, word);
      assert c.role == w.roleOf(word);
    }
  }

  predicate AllMean(items: seq<Item>, controls: seq<Range>, claims: seq<Claim>) {
    forall c :: c in claims ==> MeansRole(items, controls, c)
  }

  lemma {:induction false} MeaningJoins(items: seq<Item>, controls: seq<Range>, a: seq<Claim>, b: seq<Claim>)
    requires AllMean(items, controls, a) && AllMean(items, controls, b)
    ensures AllMean(items, controls, a + b)
  {
    hide MeansRole;
  }

  lemma {:induction false} LocalOffersMean(rs: seq<Range>, at: nat, role: Role, owner: Owner, span: Option<nat>)
    ensures forall c :: c in Offers(rs, at, role, owner, span) ==> c.role == role && c.owner == owner && c.span == span
  {
  }

  lemma {:induction false} OccurrenceMeans(r: Option<Range>, role: Role, owner: Owner, span: Option<nat>)
    ensures forall c :: c in OccurrenceOffer(r, role, owner, span) ==>
      r == Some((c.start, c.end)) && c.role == role && c.owner == owner && c.span == span
  {
  }

  lemma {:induction false} ItemOffersMean(w: Words, text: string, items: seq<Item>, controls: seq<Range>, x: Item)
    requires WordRoles(w) && x in items && x.start <= x.end <= |text|
    ensures forall c :: c in ItemOffers(w, text, x) ==> MeansRole(items, controls, c)
  {
    var owner, local, span := OwnedByState(x.state), text[x.start..x.end], Some(x.id);
    WordsMean(w, text, x.start, x.end, owner, span);
    LocalOffersMean(w.relations(local), x.start, Relation, owner, span);
    LocalOffersMean(w.chunks(local), x.start, ProtectedCue, owner, span);
    OccurrenceMeans(PointedAt(x, Subject), Subject, owner, span);
    OccurrenceMeans(x.duration, Duration, owner, span);
    OccurrenceMeans(x.proficiency, Proficiency, owner, span);
    OccurrenceMeans(x.modality, ModalityRole, owner, span);
    hide WordRoles, Offers, WordOffers, OccurrenceOffer;
    if x.state == D.Prohibited {
      OwnMeans(items, controls, x, Offers(w.chunks(local), x.start, ProtectedCue, owner, span));
    } else {
      var a := OccurrenceOffer(PointedAt(x, Subject), Subject, owner, span);
      var b := OccurrenceOffer(x.duration, Duration, owner, span);
      var c := OccurrenceOffer(x.proficiency, Proficiency, owner, span);
      var d := OccurrenceOffer(x.modality, ModalityRole, owner, span);
      var e := Offers(w.relations(local), x.start, Relation, owner, span);
      var f := WordOffers(w, text, x.start, x.end, owner, span);
      OwnMeans(items, controls, x, a);
      OwnMeans(items, controls, x, b);
      OwnMeans(items, controls, x, c);
      OwnMeans(items, controls, x, d);
      OwnMeans(items, controls, x, e);
      OwnMeans(items, controls, x, f);
      hide AllMean, MeansRole;
      MeaningJoins(items, controls, a, b);
      MeaningJoins(items, controls, a + b, c);
      MeaningJoins(items, controls, a + b + c, d);
      MeaningJoins(items, controls, a + b + c + d, e);
      MeaningJoins(items, controls, a + b + c + d + e, f);
      assert AllMean(items, controls, ItemOffers(w, text, x));
    }
    Unpack(items, controls, ItemOffers(w, text, x));
  }

  lemma {:induction false} Unpack(items: seq<Item>, controls: seq<Range>, claims: seq<Claim>)
    requires AllMean(items, controls, claims)
    ensures forall c :: c in claims ==> MeansRole(items, controls, c)
  {
    hide MeansRole;
  }

  /** Claims of one span with roles that its reading explains. */
  lemma {:induction false} OwnMeans(items: seq<Item>, controls: seq<Range>, x: Item, claims: seq<Claim>)
    requires x in items
    requires forall c :: c in claims ==> BelongsTo(c, x) && c.role != ControlResultCount
    requires forall c :: c in claims ==> (c.role == ProtectedCue <==> x.state == D.Prohibited)
    requires forall c :: c in claims && IsPointer(c.role) ==> PointedAt(x, c.role) == Some((c.start, c.end))
    ensures AllMean(items, controls, claims)
  {
    hide PointedAt;
  }

  lemma {:induction false} ItemsOffersMean(w: Words, text: string, items: seq<Item>, controls: seq<Range>, k: nat := 0)
    requires WordRoles(w) && k <= |items| && ItemsFit(text, items)
    ensures forall c :: c in ItemsOffers(w, text, items, k) ==> MeansRole(items, controls, c)
    decreases |items| - k
  {
    hide ItemOffers, MeansRole, WordRoles;
    if k < |items| {
      ItemOffersMean(w, text, items, controls, items[k]);
      ItemsOffersMean(w, text, items, controls, k + 1);
    }
  }

  lemma {:induction false} OuterOffersMean(w: Words, text: string, items: seq<Item>, controls: seq<Range>)
    requires WordRoles(w)
    ensures forall c :: c in Offers(controls, 0, ControlResultCount, WorkflowControl, None) ==> MeansRole(items, controls, c)
    ensures forall c :: c in WordOffers(w, text, 0, |text|, NonRequirementText, None) ==> MeansRole(items, controls, c)
  {
    var first := Offers(controls, 0, ControlResultCount, WorkflowControl, None);
    forall c | c in first
      ensures MeansRole(items, controls, c)
    {
      var i :| 0 <= i < |first| && first[i] == c;
      assert controls[i] in controls;
    }
  }

  /** Every role in the register is what the reading of a span, or the result-count wording, pointed at. */
  lemma {:induction false} RolesAreWhatTheyMean(w: Words, text: string, items: seq<Item>, controls: seq<Range>)
    requires WordRoles(w) && ItemsFit(text, items)
    ensures forall c :: c in SortedClaims(Registered([], AllOffers(w, text, items, controls))) ==> MeansRole(items, controls, c)
  {
    ItemsOffersMean(w, text, items, controls);
    OuterOffersMean(w, text, items, controls);
    hide MeansRole, WordRoles, Offers, WordOffers, ItemsOffers, Registered, SortedClaims;
    var offers := AllOffers(w, text, items, controls);
    RegisteredKeeps([], offers);
    SortedIsPermutation(Registered([], offers));
    SameMembers(SortedClaims(Registered([], offers)), Registered([], offers));
  }

  lemma {:induction false} SameMembers(a: seq<Claim>, b: seq<Claim>)
    requires multiset(a) == multiset(b)
    ensures forall c :: c in a <==> c in b
  {
    forall c
      ensures c in a <==> c in b
    {
      assert c in a <==> c in multiset(a);
      assert c in b <==> c in multiset(b);
    }
  }

  // ------------------------------------------------------------------ an occurrence nobody disputes

  predicate AllApart(claims: seq<Claim>, r: Range) {
    forall c :: c in claims ==> c.end <= r.0 || r.1 <= c.start
  }

  /** The four occurrences of one span in the order they are offered. */
  predicate OfferedBefore(a: Role, b: Role) {
    match b
    case Duration => a == Subject
    case Proficiency => a == Subject || a == Duration
    case ModalityRole => a == Subject || a == Duration || a == Proficiency
    case _ => false
  }

  function Before(x: Item, role: Role): seq<Claim> {
    var owner := OwnedByState(x.state);
    var subject := OccurrenceOffer(PointedAt(x, Subject), Subject, owner, Some(x.id));
    var duration := OccurrenceOffer(x.duration, Duration, owner, Some(x.id));
    var proficiency := OccurrenceOffer(x.proficiency, Proficiency, owner, Some(x.id));
    match role
    case Duration => subject
    case Proficiency => subject + duration
    case ModalityRole => subject + duration + proficiency
    case _ => []
  }

  function ItemsBefore(w: Words, text: string, items: seq<Item>, n: nat): seq<Claim>
    requires n <= |items| && ItemsFit(text, items)
  {
    if n == 0 then [] else ItemsBefore(w, text, items, n - 1) + ItemOffers(w, text, items[n - 1])
  }

  lemma {:induction false} ItemsSplit(w: Words, text: string, items: seq<Item>, n: nat)
    requires n <= |items| && ItemsFit(text, items)
    ensures ItemsOffers(w, text, items) == ItemsBefore(w, text, items, n) + ItemsOffers(w, text, items, n)
  {
    hide ItemOffers;
    if n > 0 {
      ItemsSplit(w, text, items, n - 1);
    }
  }

  lemma {:induction false} OwnSplit(w: Words, text: string, x: Item, role: Role) returns (rest: seq<Claim>)
    requires x.start <= x.end <= |text| && IsPointer(role) && PointedAt(x, role).Some?
    ensures var r := PointedAt(x, role).value;
      ItemOffers(w, text, x) == Before(x, role) + ([Claim(r.0, r.1, role, OwnedByState(x.state), Some(x.id))] + rest)
  {
    var owner, local := OwnedByState(x.state), text[x.start..x.end];
    var a := OccurrenceOffer(PointedAt(x, Subject), Subject, owner, Some(x.id));
    var b := OccurrenceOffer(x.duration, Duration, owner, Some(x.id));
    var c := OccurrenceOffer(x.proficiency, Proficiency, owner, Some(x.id));
    var d := OccurrenceOffer(x.modality, ModalityRole, owner, Some(x.id));
    var e := Offers(w.relations(local), x.start, Relation, owner, Some(x.id));
    var f := WordOffers(w, text, x.start, x.end, owner, Some(x.id));
    hide Offers, WordOffers;
    Regroup(a, b, c, d, e, f);
    match role
    case Subject => rest := b + c + d + e + f;
    case Duration => rest := c + d + e + f;
    case Proficiency => rest := d + e + f;
    case _ => rest := e + f;
  }

  lemma {:induction false} Regroup(
      a: seq<Claim>, b: seq<Claim>, c: seq<Claim>, d: seq<Claim>, e: seq<Claim>, f: seq<Claim>)
    ensures a + b + c + d + e + f == [] + (a + (b + c + d + e + f))
    ensures a + b + c + d + e + f == a + (b + (c + d + e + f))
    ensures a + b + c + d + e + f == (a + b) + (c + (d + e + f))
    ensures a + b + c + d + e + f == (a + b + c) + (d + (e + f))
  {
  }

  /** The claims of an item on other text than `r`, apart from it. */
  predicate OwnApart(x: Item, role: Role, r: Range) {
    forall other: Role :: OfferedBefore(other, role) && PointedAt(x, other).Some? ==>
      PointedAt(x, other).value.1 <= r.0 || r.1 <= PointedAt(x, other).value.0
  }

  lemma {:induction false} BeforeIsApart(x: Item, role: Role, r: Range)
    requires IsPointer(role) && PointedAt(x, role).Some? && OwnApart(x, role, r)
    ensures AllApart(Before(x, role), r)
  {
    assert OfferedBefore(Subject, role) && PointedAt(x, Subject).Some? ==>
      PointedAt(x, Subject).value.1 <= r.0 || r.1 <= PointedAt(x, Subject).value.0;
    assert OfferedBefore(Duration, role) && PointedAt(x, Duration).Some? ==>
      PointedAt(x, Duration).value.1 <= r.0 || r.1 <= PointedAt(x, Duration).value.0;
    assert OfferedBefore(Proficiency, role) && PointedAt(x, Proficiency).Some? ==>
      PointedAt(x, Proficiency).value.1 <= r.0 || r.1 <= PointedAt(x, Proficiency).value.0;
  }

  lemma {:induction false} ApartJoins(a: seq<Claim>, b: seq<Claim>, r: Range)
    requires AllApart(a, r) && AllApart(b, r)
    ensures AllApart(a + b, r)
  {
  }

  lemma {:induction false} UndisputedInTheMiddle(before: seq<Claim>, mine: Claim, after: seq<Claim>)
    requires mine.start < mine.end && AllApart(before, (mine.start, mine.end))
    ensures mine in Registered([], before + ([mine] + after))
  {
    var offers := before + ([mine] + after);
    assert offers[|before|] == mine;
    forall j | 0 <= j < |before|
      ensures !(offers[j].start < mine.end && mine.start < offers[j].end)
    {
      assert offers[j] in before;
    }
    UndisputedIsRegistered([], offers, |before|);
  }

  /**
   An occurrence that a span's reading points at is registered with its role and its span's authority,
   unless result-count wording, an earlier span or an earlier occurrence of the same span has its text.
   */
  lemma {:induction false} OccurrenceKeepsItsRole(
      w: Words, text: string, items: seq<Item>, controls: seq<Range>, k: nat, role: Role)
    requires ItemsFit(text, items) && k < |items| && IsPointer(role) && PointedAt(items[k], role).Some?
    requires var r := PointedAt(items[k], role).value;
      && r.0 < r.1 && Clear(r, controls) && OwnApart(items[k], role, r) && AllApart(ItemsBefore(w, text, items, k), r)
    ensures var r := PointedAt(items[k], role).value;
      Claim(r.0, r.1, role, OwnedByState(items[k].state), Some(items[k].id)) in Registered([], AllOffers(w, text, items, controls))
  {
    var x := items[k];
    var r := PointedAt(x, role).value;
    var mine := Claim(r.0, r.1, role, OwnedByState(x.state), Some(x.id));
    var first := Offers(controls, 0, ControlResultCount, WorkflowControl, None);
    var last := WordOffers(w, text, 0, |text|, NonRequirementText, None);
    var own, earlier := Before(x, role), ItemsBefore(w, text, items, k);
    var rest := OwnSplit(w, text, x, role);
    ItemsSplit(w, text, items, k);
    BeforeIsApart(x, role, r);
    ControlsApart(controls, r);
    hide ItemOffers, ItemsBefore, Before, OwnApart, AllApart, PointedAt, Registered, Offers, WordOffers;
    var later := ItemsOffers(w, text, items, k + 1);
    ApartJoins(first, earlier, r);
    ApartJoins(first + earlier, own, r);
    NextItem(w, text, items, k);
    InTheMiddle(first, earlier, own, mine, rest, later, last);
    UndisputedInTheMiddle(first + earlier + own, mine, rest + later + last);
  }

  lemma {:induction false} NextItem(w: Words, text: string, items: seq<Item>, k: nat)
    requires ItemsFit(text, items) && k < |items|
    ensures ItemsOffers(w, text, items, k) == ItemOffers(w, text, items[k]) + ItemsOffers(w, text, items, k + 1)
  {
    hide ItemOffers;
  }

  lemma {:induction false} InTheMiddle(
      first: seq<Claim>, earlier: seq<Claim>, own: seq<Claim>, mine: Claim, rest: seq<Claim>, later: seq<Claim>, last: seq<Claim>)
    ensures first + (earlier + ((own + ([mine] + rest)) + later)) + last == (first + earlier + own) + ([mine] + (rest + later + last))
  {
  }

  lemma {:induction false} ControlsApart(controls: seq<Range>, r: Range)
    requires Clear(r, controls)
    ensures AllApart(Offers(controls, 0, ControlResultCount, WorkflowControl, None), r)
  {
    var first := Offers(controls, 0, ControlResultCount, WorkflowControl, None);
    forall c | c in first
      ensures c.end <= r.0 || r.1 <= c.start
    {
      var i :| 0 <= i < |first| && first[i] == c;
      assert controls[i] in controls;
    }
  }
}

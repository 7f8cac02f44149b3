// Refund matching (classifier/refund.go): which purchase a refund gives money back for. Each
// proposal claims its amount of the purchase, so that a later refund sees what is left.
module RefundMatch {
  import opened Staging
  import opened Wrappers
  import opened RefundLink
  import Ordering

  const MINUTE := 60_000_000_000                     // in nanoseconds
  const DAY := 24 * 60 * MINUTE
  const LOOKBACK := 180 * DAY
  const CONFIDENT_DAYS := 30
  const PARTIAL_DAYS := 7

  // A staged row, in effective values (a person's win over the classifier's). `when` is None
  // when its text does not parse; `card` is the asset a refund landed on, `srcAsset` the one a
  // purchase was paid from, 0 for unknown; `suspect` is whether its tier, rail, words or category
  // make it worth looking at. confirmedRef is Some(NoRef) for a person's "no purchase".
  datatype Staged = Staged(
    uuid: Uuid, incoming: bool, status: Status, amount: nat, when: Option<int>, stamp: int,
    merchant: string, payee: string, payer: string, group: string, account: string,
    card: int, srcAsset: int, journalId: int, suspect: bool,
    confirmedRef: Option<Ref>, proposedRef: Option<Ref>)

  // A withdrawal in Firefly's mirror.
  datatype Mirrored = Mirrored(
    id: int, amount: int, when: Option<int>, srcAsset: int,
    payeeNormalized: string, payee: string, notes: string, external: Option<Uuid>)

  // mentions is the LIKE over a journal's notes.
  datatype World = World(journals: seq<Mirrored>, mentions: (string, string) -> bool, threshold: real)

  datatype Candidate = Candidate(
    ref: Ref, amount: int, when: Option<int>, journalId: int, groupMatch: bool,
    account: string, asset: int, exact: bool, daysBefore: int)

  function EffectiveRef(row: Staged): Ref {
    match row.confirmedRef
    case Some(ref) => ref
    case None => if row.proposedRef.Some? then row.proposedRef.value else NoRef
  }

  // ---- claims ------------------------------------------------------------------------------------

  // What refunds other than row `but` point at a reference, summed over the first n rows.
  function Claims(rows: seq<Staged>, ref: Ref, but: int, n: nat): nat
    requires n <= |rows|
  {
    if n == 0 then 0
    else Claims(rows, ref, but, n - 1)
         + if n - 1 != but && rows[n - 1].status != Skipped && EffectiveRef(rows[n - 1]) == ref then rows[n - 1].amount else 0
  }

  function ClaimsOn(rows: seq<Staged>, ref: Ref): nat { Claims(rows, ref, -1, |rows|) }

  // refundClaims: one pass over the table.
  method RefundClaims(rows: seq<Staged>, but: nat) returns (claims: map<Ref, nat>)
    ensures forall ref: Ref | !ref.NoRef? :: Claims(rows, ref, but, |rows|) == if ref in claims then claims[ref] else 0
  {
    claims := map[];
    for i := 0 to |rows|
      invariant forall ref: Ref | !ref.NoRef? :: Claims(rows, ref, but, i) == if ref in claims then claims[ref] else 0
    {
      var ref := EffectiveRef(rows[i]);
      if i != but && rows[i].status != Skipped && !ref.NoRef? {
        claims := claims[ref := (if ref in claims then claims[ref] else 0) + rows[i].amount];
      }
    }
  }

  // ---- candidates -----------------------------------------------------------------------------------

  function MerchantOf(refund: Staged): string { if refund.merchant != "" then refund.merchant else refund.payer }

  // The purchases fold has staged that could be meant.
  predicate StagedMatch(refund: Staged, row: Staged) {
    var merchant := MerchantOf(refund);
    && !row.incoming && row.status != Skipped && row.uuid != refund.uuid
    && ((merchant != "" && (row.merchant == merchant || row.payee == merchant))
        || (refund.group != "" && row.group == refund.group))
  }

  // Those only Firefly has.
  predicate JournalMatch(w: World, refund: Staged, j: Mirrored) {
    var merchant := MerchantOf(refund);
    && refund.card != 0 && merchant != "" && j.srcAsset == refund.card
    && (j.payeeNormalized == merchant || j.payee == merchant || (|merchant| >= 4 && w.mentions(j.notes, merchant)))
  }

  function FromStaged(refund: Staged, row: Staged): Candidate {
    Candidate(FoldRef(row.uuid), row.amount, row.when, row.journalId, refund.group != "" && row.group == refund.group,
              row.account, row.srcAsset, false, 0)
  }

  function FromJournal(refund: Staged, j: Mirrored): Candidate {
    Candidate(JournalRef(j.id), j.amount, j.when, j.id, false, "", refund.card, false, 0)
  }

  function StagedOnes(refund: Staged, rows: seq<Staged>, n: nat): seq<Candidate>
    requires n <= |rows|
  {
    if n == 0 then []
    else StagedOnes(refund, rows, n - 1) + if StagedMatch(refund, rows[n - 1]) then [FromStaged(refund, rows[n - 1])] else []
  }

  predicate StandsFor(found: seq<Candidate>, journalId: int) {
    journalId != 0 && exists c | c in found :: c.journalId == journalId
  }

  function JournalOnes(w: World, refund: Staged, found: seq<Candidate>, n: nat): seq<Candidate>
    requires n <= |w.journals|
  {
    if n == 0 then []
    else
      var j := w.journals[n - 1];
      JournalOnes(w, refund, found, n - 1)
      + if JournalMatch(w, refund, j) && !StandsFor(found, j.id) && j.external != Some(refund.uuid)
        then [FromJournal(refund, j)] else []
  }

  predicate SameCard(refund: Staged, c: Candidate) {
    if refund.account != "" && c.account != "" then refund.account == c.account
    else if refund.card != 0 && c.asset != 0 then refund.card == c.asset
    else refund.account == "" && refund.card == 0
  }

  // A refund follows its purchase, within the lookback, and gives back at most what is left.
  predicate InTime(refund: Staged, c: Candidate) {
    refund.when.Some? && c.when.Some? ==>
      refund.when.value - LOOKBACK <= c.when.value <= refund.when.value + MINUTE
  }

  // Of a journal candidate the same claims are counted twice: its reference is its journal's.
  function Claimed(rows: seq<Staged>, i: nat, c: Candidate): nat { ClaimedOn(rows, i, c.ref, c.journalId) }

  // What other refunds point at a purchase, by its reference and by its journal.
  function ClaimedOn(rows: seq<Staged>, i: nat, ref: Ref, journalId: int): nat {
    Claims(rows, ref, i, |rows|) + if journalId != 0 then Claims(rows, JournalRef(journalId), i, |rows|) else 0
  }

  predicate Keeps(rows: seq<Staged>, i: nat, c: Candidate)
    requires i < |rows|
  {
    && SameCard(rows[i], c)
    && (c.groupMatch || (InTime(rows[i], c) && c.amount - Claimed(rows, i, c) >= rows[i].amount))
  }

  function Weighed(refund: Staged, c: Candidate): Candidate {
    c.(exact := c.amount == refund.amount,
       daysBefore := if refund.when.Some? && c.when.Some? && refund.when.value > c.when.value
                     then (refund.when.value - c.when.value) / DAY else 0)
  }

  function Kept(rows: seq<Staged>, i: nat, all: seq<Candidate>): seq<Candidate>
    requires i < |rows|
  {
    if all == [] then [] else
    var last := all[|all| - 1];
    Kept(rows, i, all[..|all| - 1]) + if Keeps(rows, i, last) then [Weighed(rows[i], last)] else []
  }

  // An unreadable time is the zero time, before every other.
  predicate Later(a: Option<int>, b: Option<int>) { a.Some? && (b.None? || a.value > b.value) }

  predicate Better(a: Candidate, b: Candidate) {
    if a.groupMatch != b.groupMatch then a.groupMatch
    else if a.exact != b.exact then a.exact
    else Later(a.when, b.when)
  }

  function Candidates(w: World, rows: seq<Staged>, i: nat): seq<Candidate>
    requires i < |rows|
  {
    if MerchantOf(rows[i]) == "" && rows[i].group == "" then []
    else
      var staged := StagedOnes(rows[i], rows, |rows|);
      Ordering.Sorted(Kept(rows, i, staged + JournalOnes(w, rows[i], staged, |w.journals|)), Better)
  }

  method FindRefundCandidates(w: World, rows: seq<Staged>, i: nat) returns (cands: seq<Candidate>)
    requires i < |rows|
    ensures cands == Candidates(w, rows, i)
  {
    var refund := rows[i];
    if MerchantOf(refund) == "" && refund.group == "" {
      return [];
    }
    var claims := RefundClaims(rows, i);
    var found := [];
    for k := 0 to |rows|
      invariant found == StagedOnes(refund, rows, k)
    {
      if StagedMatch(refund, rows[k]) {
        found := found + [FromStaged(refund, rows[k])];
      }
    }
    var mirrored := [];
    for k := 0 to |w.journals|
      invariant mirrored == JournalOnes(w, refund, found, k)
    {
      var j := w.journals[k];
      if JournalMatch(w, refund, j) && !StandsFor(found, j.id) && j.external != Some(refund.uuid) {
        mirrored := mirrored + [FromJournal(refund, j)];
      }
    }
    var all := found + mirrored;
    var kept := [];
    for k := 0 to |all|
      invariant kept == Kept(rows, i, all[..k])
    {
      assert all[..k + 1][..k] == all[..k];
      var c := all[k];
      var claimed := (if c.ref in claims then claims[c.ref] else 0)
        + if c.journalId != 0 && JournalRef(c.journalId) in claims then claims[JournalRef(c.journalId)] else 0;
      NamesAPurchase(w, rows, i, k);
      assert claimed == Claimed(rows, i, c);
      if SameCard(refund, c) && (c.groupMatch || (InTime(refund, c) && c.amount - claimed >= refund.amount)) {
        kept := kept + [Weighed(refund, c)];
      }
    }
    assert all[..|all|] == all;
    cands := Ordering.Sorted(kept, Better);
  }

  lemma {:induction false} StagedOnesName(refund: Staged, rows: seq<Staged>, n: nat, k: nat)
    requires n <= |rows| && k < |StagedOnes(refund, rows, n)|
    ensures StagedOnes(refund, rows, n)[k].ref.FoldRef?
    ensures exists r | 0 <= r < n :: StagedOnes(refund, rows, n)[k] == FromStaged(refund, rows[r]) && !rows[r].incoming
  {
    if k < |StagedOnes(refund, rows, n - 1)| {
      StagedOnesName(refund, rows, n - 1, k);
    }
  }

  lemma {:induction false} JournalOnesName(w: World, refund: Staged, found: seq<Candidate>, n: nat, k: nat)
    requires n <= |w.journals| && k < |JournalOnes(w, refund, found, n)|
    ensures exists j | 0 <= j < n :: JournalOnes(w, refund, found, n)[k] == FromJournal(refund, w.journals[j])
  {
    if k < |JournalOnes(w, refund, found, n - 1)| {
      JournalOnesName(w, refund, found, n - 1, k);
    }
  }

  function All(w: World, rows: seq<Staged>, i: nat): seq<Candidate>
    requires i < |rows|
  {
    var staged := StagedOnes(rows[i], rows, |rows|);
    staged + JournalOnes(w, rows[i], staged, |w.journals|)
  }

  // Every candidate names a purchase, with that purchase's amount.
  predicate Names(w: World, rows: seq<Staged>, c: Candidate) {
    match c.ref
    case NoRef => false
    case FoldRef(u) => exists r | 0 <= r < |rows| :: rows[r].uuid == u && c.amount == rows[r].amount && !rows[r].incoming
    case JournalRef(id) => exists j | 0 <= j < |w.journals| :: w.journals[j].id == id && c.amount == w.journals[j].amount
  }

  lemma NamesAPurchase(w: World, rows: seq<Staged>, i: nat, k: nat)
    requires i < |rows| && k < |All(w, rows, i)|
    ensures Names(w, rows, All(w, rows, i)[k])
  {
    var staged := StagedOnes(rows[i], rows, |rows|);
    if k < |staged| {
      StagedOnesName(rows[i], rows, |rows|, k);
    } else {
      JournalOnesName(w, rows[i], staged, |w.journals|, k - |staged|);
    }
  }

  // ---- the pick ----------------------------------------------------------------------------------------

  datatype Pick = Pick(chosen: Option<Candidate>, confidence: real)

  predicate Recent(c: Candidate) { c.exact && c.daysBefore <= CONFIDENT_DAYS }

  // The first candidate that satisfies a test; |cands| for none.
  function First(cands: seq<Candidate>, test: Candidate -> bool): (k: nat)
    ensures k <= |cands| && (k < |cands| ==> test(cands[k])) && forall j | 0 <= j < k :: !test(cands[j])
  {
    if cands == [] || test(cands[0]) then 0 else 1 + First(cands[1..], test)
  }

  function CountRecent(cands: seq<Candidate>, n: nat): nat
    requires n <= |cands|
  {
    if n == 0 then 0 else CountRecent(cands, n - 1) + if Recent(cands[n - 1]) then 1 else 0
  }

  function Picked(cands: seq<Candidate>): Pick {
    var group := First(cands, (c: Candidate) => c.groupMatch);
    var recent := First(cands, Recent);
    var exact := First(cands, (c: Candidate) => c.exact);
    var partial := First(cands, (c: Candidate) => !c.exact);
    if cands == [] then Pick(None, 0.7)
    else if group < |cands| then Pick(Some(cands[group]), 1.0)
    else if recent < |cands| then Pick(Some(cands[recent]), if CountRecent(cands, |cands|) == 1 then 1.0 else 0.9)
    else if exact < |cands| then Pick(Some(cands[exact]), 0.6)
    else if partial < |cands| && cands[partial].daysBefore <= PARTIAL_DAYS then Pick(Some(cands[partial]), 0.6)
    else Pick(None, 0.6)
  }

  method PickRefundCandidate(cands: seq<Candidate>) returns (pick: Pick)
    ensures pick == Picked(cands)
  {
    if |cands| == 0 {
      return Pick(None, 0.7);
    }
    for i := 0 to |cands|
      invariant forall j | 0 <= j < i :: !cands[j].groupMatch
    {
      if cands[i].groupMatch {
        return Pick(Some(cands[i]), 1.0);
      }
    }
    var recent: seq<nat> := [];
    var firstExact, firstPartial := -1, -1;
    for i := 0 to |cands|
      invariant |recent| == CountRecent(cands, i)
      invariant if recent == [] then forall j | 0 <= j < i :: !Recent(cands[j])
                else recent[0] < i && Recent(cands[recent[0]]) && forall j | 0 <= j < recent[0] :: !Recent(cands[j])
      invariant if firstExact < 0 then forall j | 0 <= j < i :: !cands[j].exact
                else firstExact < i && cands[firstExact].exact && forall j | 0 <= j < firstExact :: !cands[j].exact
      invariant if firstPartial < 0 then forall j | 0 <= j < i :: cands[j].exact
                else firstPartial < i && !cands[firstPartial].exact && forall j | 0 <= j < firstPartial :: cands[j].exact
    {
      var c := cands[i];
      if c.exact && firstExact < 0 {
        firstExact := i;
      } else if !c.exact && firstPartial < 0 {
        firstPartial := i;
      }
      if c.exact && c.daysBefore <= CONFIDENT_DAYS {
        recent := recent + [i];
      }
    }
    if |recent| == 1 {
      return Pick(Some(cands[recent[0]]), 1.0);
    }
    if |recent| > 1 {
      return Pick(Some(cands[recent[0]]), 0.9);
    }
    if firstExact >= 0 {
      return Pick(Some(cands[firstExact]), 0.6);
    }
    if firstPartial >= 0 && cands[firstPartial].daysBefore <= PARTIAL_DAYS {
      return Pick(Some(cands[firstPartial]), 0.6);
    }
    return Pick(None, 0.6);
  }

  lemma RecentIsPicked(cands: seq<Candidate>, k: nat)
    requires k < |cands| && Recent(cands[k]) && forall j | 0 <= j < k :: !Recent(cands[j])
    requires forall j | 0 <= j < |cands| :: !cands[j].groupMatch
    ensures Picked(cands).chosen == Some(cands[k])
    ensures Picked(cands).confidence == if forall j | k < j < |cands| :: !Recent(cands[j]) then 1.0 else 0.9
  {
    if j :| k < j < |cands| && Recent(cands[j]) {
      CountsMore(cands, |cands|, k, j);
    } else {
      CountsTheOne(cands, |cands|, k);
    }
  }

  // The pick, of the candidates as listed: the first that is grouped, for certain; else the first of the
  // exact amount at most 30 whole days before, for certain if it is the only one; else, as a guess, the
  // first exact one, or the first at all if it is at most a week old, or none.
  lemma PickMeans(cands: seq<Candidate>, k: nat)
    requires k < |cands|
    ensures var recent := (c: Candidate) => c.exact && c.daysBefore <= 30;
      var ungrouped := forall j | 0 <= j < |cands| :: !cands[j].groupMatch;
      && (cands[k].groupMatch && (forall j | 0 <= j < k :: !cands[j].groupMatch) ==> Picked(cands) == Pick(Some(cands[k]), 1.0))
      && (ungrouped && recent(cands[k]) && (forall j | 0 <= j < k :: !recent(cands[j])) ==>
            && Picked(cands).chosen == Some(cands[k])
            && Picked(cands).confidence == if forall j | k < j < |cands| :: !recent(cands[j]) then 1.0 else 0.9)
      && (ungrouped && !(exists j | 0 <= j < |cands| :: recent(cands[j])) ==>
            cands[k].exact && (forall j | 0 <= j < k :: !cands[j].exact) ==> Picked(cands) == Pick(Some(cands[k]), 0.6))
      && (ungrouped && (forall j | 0 <= j < |cands| :: !cands[j].exact) ==>
            Picked(cands) == Pick(if cands[0].daysBefore <= 7 then Some(cands[0]) else None, 0.6))
    ensures Picked([]) == Pick(None, 0.7)
  {
    if (forall j | 0 <= j < |cands| :: !cands[j].groupMatch) && Recent(cands[k]) && forall j | 0 <= j < k :: !Recent(cands[j]) {
      RecentIsPicked(cands, k);
    }
  }

  lemma BetterIsWeak()
    ensures Ordering.Weak(Better)
  {
  }

  predicate Confident(pick: Pick, threshold: real) { pick.chosen.Some? && pick.confidence >= threshold }

  // The exact amount, less than 31 days before; a time that cannot be read is no objection.
  predicate ExactUnder31Days(refund: Staged, c: Candidate) {
    c.amount == refund.amount
    && (refund.when.Some? && c.when.Some? ==> refund.when.value - c.when.value < (CONFIDENT_DAYS + 1) * DAY)
  }

  // Whole days are counted, so "30 days" is anything short of 31.
  lemma RecentMeansUnder31Days(refund: Staged, c: Candidate)
    ensures Recent(Weighed(refund, c)) <==> ExactUnder31Days(refund, c)
  {
  }

  // A candidate carries the weights of its refund.
  lemma CandidateIsWeighed(w: World, rows: seq<Staged>, i: nat, c: Candidate)
    requires i < |rows| && c in Candidates(w, rows, i)
    ensures c == Weighed(rows[i], c) && (Recent(c) <==> ExactUnder31Days(rows[i], c))
    ensures var days := 24 * 3600 * 1_000_000_000;
      if rows[i].when.Some? && c.when.Some? && rows[i].when.value > c.when.value
      then c.daysBefore * days <= rows[i].when.value - c.when.value < (c.daysBefore + 1) * days
      else c.daysBefore == 0
  {
    var all := All(w, rows, i);
    Ordering.SortedHolds(Kept(rows, i, all), Better, c);
    KeptWasKept(rows, i, all, c);
    RecentMeansUnder31Days(rows[i], c);
  }

  predicate OnlyOne(cands: seq<Candidate>, test: Candidate -> bool) {
    exists k | 0 <= k < |cands| :: IsTheOne(cands, test, k)
  }

  predicate IsTheOne(cands: seq<Candidate>, test: Candidate -> bool, k: nat)
    requires k < |cands|
  {
    test(cands[k]) && forall l | 0 <= l < |cands| && l != k :: !test(cands[l])
  }

  lemma {:induction false} CountsNone(cands: seq<Candidate>, n: nat)
    requires n <= |cands|
    ensures CountRecent(cands, n) == 0 <==> forall k | 0 <= k < n :: !Recent(cands[k])
  {
    if n > 0 {
      CountsNone(cands, n - 1);
    }
  }

  lemma {:induction false} CountsMore(cands: seq<Candidate>, n: nat, k: nat, l: nat)
    requires k < l < n <= |cands| && Recent(cands[k]) && Recent(cands[l])
    ensures CountRecent(cands, n) >= 2
  {
    if l < n - 1 {
      CountsMore(cands, n - 1, k, l);
    } else {
      CountsNone(cands, n - 1);
    }
  }

  lemma {:induction false} CountsTheOne(cands: seq<Candidate>, n: nat, k: nat)
    requires k < n <= |cands| && IsTheOne(cands, Recent, k)
    ensures CountRecent(cands, n) == 1
  {
    if k < n - 1 {
      CountsTheOne(cands, n - 1, k);
    } else {
      CountsNone(cands, n - 1);
    }
  }

  lemma CountsOne(cands: seq<Candidate>)
    ensures CountRecent(cands, |cands|) == 1 <==> OnlyOne(cands, Recent)
  {
    if k: nat :| k < |cands| && Recent(cands[k]) {
      if l: nat :| l < |cands| && l != k && Recent(cands[l]) {
        CountsMore(cands, |cands|, if k < l then k else l, if k < l then l else k);
        forall j | 0 <= j < |cands| ensures !IsTheOne(cands, Recent, j) {
          assert Recent(cands[k]) && Recent(cands[l]);
        }
      } else {
        assert IsTheOne(cands, Recent, k);
        CountsTheOne(cands, |cands|, k);
      }
    } else {
      CountsNone(cands, |cands|);
    }
  }

  lemma OnlyOneAlike(cands: seq<Candidate>, p: Candidate -> bool, q: Candidate -> bool)
    requires forall c | c in cands :: p(c) <==> q(c)
    ensures OnlyOne(cands, p) <==> OnlyOne(cands, q)
    ensures (exists c | c in cands :: p(c)) <==> exists c | c in cands :: q(c)
  {
    forall k | 0 <= k < |cands| ensures IsTheOne(cands, p, k) <==> IsTheOne(cands, q, k) {
      assert forall l | 0 <= l < |cands| :: cands[l] in cands;
    }
    if c :| c in cands && p(c) {
      assert q(c);
    }
    if c :| c in cands && q(c) {
      assert p(c);
    }
  }

  lemma ConfidentExactlyWhen(cands: seq<Candidate>, threshold: real)
    requires 0.6 < threshold <= 1.0
    ensures Confident(Picked(cands), threshold) <==>
      || (exists c | c in cands :: c.groupMatch)
      || ((exists c | c in cands :: Recent(c)) && (threshold <= 0.9 || CountRecent(cands, |cands|) == 1))
  {
    assert First(cands, (c: Candidate) => c.groupMatch) < |cands| <==> exists c | c in cands :: c.groupMatch;
    assert First(cands, Recent) < |cands| <==> exists c | c in cands :: Recent(c);
  }

  function Under31DaysOf(refund: Staged): Candidate -> bool { (c: Candidate) => ExactUnder31Days(refund, c) }

  // With a threshold above 0.6 something is proposed exactly when fold.money has grouped a
  // candidate, or one has the exact amount less than 31 days before (the only one, when the
  // threshold is above 0.9).
  lemma ProposesExactlyWhen(w: World, rows: seq<Staged>, i: nat)
    requires i < |rows| && 0.6 < w.threshold <= 1.0
    ensures var cands := Candidates(w, rows, i);
      Turn(w, rows, i).Some? <==>
        || (exists c | c in cands :: c.groupMatch)
        || (if w.threshold <= 0.9 then exists c | c in cands :: Under31DaysOf(rows[i])(c)
            else OnlyOne(cands, Under31DaysOf(rows[i])))
  {
    var cands := Candidates(w, rows, i);
    ConfidentExactlyWhen(cands, w.threshold);
    CountsOne(cands);
    forall c | c in cands ensures Recent(c) <==> ExactUnder31Days(rows[i], c) {
      CandidateIsWeighed(w, rows, i, c);
    }
    OnlyOneAlike(cands, Recent, Under31DaysOf(rows[i]));
  }

  // What is proposed is a group match whenever there is one, of those one of the exact amount
  // before any other and then the latest, or else the latest purchase of exactly the amount less
  // than 31 days before.
  lemma ProposesTheLatestExact(w: World, rows: seq<Staged>, i: nat)
    requires i < |rows| && w.threshold > 0.6 && Turn(w, rows, i).Some?
    ensures var cands, chosen := Candidates(w, rows, i), Turn(w, rows, i).value;
      && chosen in cands
      && (chosen.groupMatch <==> exists c | c in cands :: c.groupMatch)
      && (chosen.groupMatch ==> forall c | c in cands && c.groupMatch :: !Better(c, chosen))
      && (!chosen.groupMatch ==>
            ExactUnder31Days(rows[i], chosen)
            && forall c | c in cands && ExactUnder31Days(rows[i], c) :: !Later(c.when, chosen.when))
  {
    InOrderOfMerit(w, rows, i);
    BestOf(Candidates(w, rows, i), w.threshold);
    forall c | c in Candidates(w, rows, i) ensures Recent(c) <==> ExactUnder31Days(rows[i], c) {
      CandidateIsWeighed(w, rows, i, c);
    }
  }

  lemma TheOneIsListed(w: World, rows: seq<Staged>, refund: Staged, purchase: Staged)
    requires rows == [refund, purchase] && refund.amount == purchase.amount && purchase.uuid != refund.uuid
    requires !purchase.incoming && purchase.status == Pushed && purchase.confirmedRef.None? && purchase.proposedRef.None?
    requires refund.merchant != "" && purchase.merchant == refund.merchant && refund.account != "" && purchase.account == refund.account
    requires refund.when.Some? && purchase.when.Some? && 0 <= refund.when.value - purchase.when.value < 31 * DAY
    ensures exists c | c in Candidates(w, rows, 0) :: ExactUnder31Days(rows[0], c)
  {
    NobodyClaims(rows, 0, FoldRef(purchase.uuid), purchase.journalId, 2);
    StagedPurchaseIsListed(w, rows, 0, 1);
  }

  // So a purchase a nanosecond short of 31 days old is proposed with confidence.
  lemma ThirtyDaysAndMoreIsProposed(w: World, rows: seq<Staged>, refund: Staged, purchase: Staged)
    requires w.threshold == 0.9 && w.journals == [] && rows == [refund, purchase]
    requires refund == Staged(Uuid("refund"), true, NeedsReview, 60275, Some(31 * DAY - 1), 1, "zomato", "", "", "", "card",
                              0, 0, 0, true, None, None)
    requires purchase == Staged(Uuid("purchase"), false, Pushed, 60275, Some(0), 0, "zomato", "", "", "", "card",
                                0, 0, 7, false, None, None)
    ensures Turn(w, rows, 0).Some? && Turn(w, rows, 0).value.ref == FoldRef(Uuid("purchase"))
    ensures refund.when.value - purchase.when.value > 30 * DAY
  {
    TheOneIsListed(w, rows, refund, purchase);
    var c :| c in Candidates(w, rows, 0) && ExactUnder31Days(rows[0], c);
    ProposesExactlyWhen(w, rows, 0);
    ProposesTheLatestExact(w, rows, 0);
    CandidateHasRoom(w, rows, 0, Turn(w, rows, 0).value);
  }

  lemma BestOf(cands: seq<Candidate>, threshold: real)
    requires threshold > 0.6 && Ordering.NeverLater(cands, Better)
    ensures var pick := Picked(cands);
      Confident(pick, threshold) ==>
        && pick.chosen.value in cands
        && (pick.chosen.value.groupMatch <==> exists c | c in cands :: c.groupMatch)
        && (pick.chosen.value.groupMatch ==> forall c | c in cands && c.groupMatch :: !Better(c, pick.chosen.value))
        && (!pick.chosen.value.groupMatch ==>
              Recent(pick.chosen.value) && forall c | c in cands && Recent(c) :: !Later(c.when, pick.chosen.value.when))
  {
    LatestFirst(cands);
    BestGrouped(cands);
    assert First(cands, (c: Candidate) => c.groupMatch) < |cands| <==> exists c | c in cands :: c.groupMatch;
  }

  lemma InOrderOfMerit(w: World, rows: seq<Staged>, i: nat)
    requires i < |rows|
    ensures Ordering.NeverLater(Candidates(w, rows, i), Better)
  {
    BetterIsWeak();
    var staged := StagedOnes(rows[i], rows, |rows|);
    Ordering.SortedNeverLater(Kept(rows, i, staged + JournalOnes(w, rows[i], staged, |w.journals|)), Better);
  }

  // Among candidates in order of merit no grouped one is better than the first.
  lemma BestGrouped(cands: seq<Candidate>)
    requires Ordering.NeverLater(cands, Better)
    ensures var k := First(cands, (c: Candidate) => c.groupMatch);
      k < |cands| ==> forall c | c in cands && c.groupMatch :: !Better(c, cands[k])
  {
    var k := First(cands, (c: Candidate) => c.groupMatch);
    if k < |cands| {
      forall c | c in cands && c.groupMatch ensures !Better(c, cands[k]) {
        var j :| 0 <= j < |cands| && cands[j] == c;
        assert k < j ==> !Better(cands[j], cands[k]);
      }
    }
  }

  // Among candidates in order of merit, none grouped, the first recent one is the latest.
  lemma LatestFirst(cands: seq<Candidate>)
    requires Ordering.NeverLater(cands, Better)
    ensures var k := First(cands, Recent);
      k < |cands| && (forall c | c in cands :: !c.groupMatch) ==>
        forall c | c in cands && Recent(c) :: !Later(c.when, cands[k].when)
  {
    var k := First(cands, Recent);
    if k < |cands| && forall c | c in cands :: !c.groupMatch {
      forall c | c in cands && Recent(c) ensures !Later(c.when, cands[k].when) {
        var j :| 0 <= j < |cands| && cands[j] == c;
        assert k <= j;
        assert k < j ==> !Better(cands[j], cands[k]);
        assert cands[k] in cands;
      }
    }
  }

  // ---- a whole run ---------------------------------------------------------------------------------------

  // A proposal made in a run: whose, and what.
  datatype Proposal = Proposal(row: nat, chosen: Candidate)

  predicate Undecided(row: Staged) {
    row.proposedRef.None? && (row.confirmedRef.None?)
  }

  predicate Eligible(row: Staged) {
    row.incoming && (row.status == NeedsReview || row.status == ReadyToPush || row.status == Pushed) && Undecided(row) && row.suspect
  }

  function EligibleOnes(rows: seq<Staged>, n: nat): (queue: seq<nat>)
    requires n <= |rows|
    ensures forall k | 0 <= k < |queue| :: queue[k] < n && Eligible(rows[queue[k]])
    ensures forall k, l | 0 <= k < l < |queue| :: queue[k] != queue[l]
  {
    if n == 0 then [] else EligibleOnes(rows, n - 1) + if Eligible(rows[n - 1]) then [n - 1] else []
  }

  function Proposed(rows: seq<Staged>, p: Proposal): seq<Staged>
    requires p.row < |rows|
  {
    rows[p.row := rows[p.row].(proposedRef := Some(p.chosen.ref))]
  }

  // One refund's turn: what it proposes, if anything.
  type TurnFor = (seq<Staged>, nat) -> Option<Candidate>

  function Turn(w: World, rows: seq<Staged>, i: nat): Option<Candidate>
    requires i < |rows|
  {
    var pick := Picked(Candidates(w, rows, i));
    if pick.chosen.Some? && pick.confidence >= w.threshold then pick.chosen else None
  }

  function TurnOf(w: World): TurnFor { (rows: seq<Staged>, i: nat) => if i < |rows| then Turn(w, rows, i) else None }

  // The queue in turn, oldest first, up to the first refund whose candidates cannot be read.
  function MatchAll(turn: TurnFor, rows: seq<Staged>, queue: seq<nat>, readable: nat -> bool): (end: (seq<Staged>, seq<Proposal>))
    requires forall k | 0 <= k < |queue| :: queue[k] < |rows|
    ensures |end.0| == |rows|
    decreases |queue|
  {
    if queue == [] || !readable(queue[0]) then (rows, [])
    else match turn(rows, queue[0])
      case None => MatchAll(turn, rows, queue[1..], readable)
      case Some(c) =>
        var p := Proposal(queue[0], c);
        var (rows', later) := MatchAll(turn, Proposed(rows, p), queue[1..], readable);
        (rows', [p] + later)
  }

  predicate Indexes(queue: seq<nat>, size: nat) { forall k | 0 <= k < |queue| :: queue[k] < size }

  // With i refunds of the queue behind and n of them matched, the rest leads to that end.
  predicate Midway(turn: TurnFor, rows: seq<Staged>, queue: seq<nat>, readable: nat -> bool, i: nat, n: nat, end: (seq<Staged>, nat)) {
    && Indexes(queue, |rows|) && i <= |queue|
    && var rest := MatchAll(turn, rows, queue[i..], readable); end == (rest.0, n + |rest.1|)
  }

  lemma MatchBegins(turn: TurnFor, rows: seq<Staged>, queue: seq<nat>, readable: nat -> bool)
    requires Indexes(queue, |rows|)
    ensures var whole := MatchAll(turn, rows, queue, readable);
      Midway(turn, rows, queue, readable, 0, 0, (whole.0, |whole.1|))
  {
    assert queue[0..] == queue;
  }

  lemma MatchStep(turn: TurnFor, rows: seq<Staged>, queue: seq<nat>, readable: nat -> bool, i: nat, n: nat, end: (seq<Staged>, nat))
    requires Midway(turn, rows, queue, readable, i, n, end) && i < |queue| && readable(queue[i])
    ensures var c := turn(rows, queue[i]);
      if c.None? then Midway(turn, rows, queue, readable, i + 1, n, end)
      else Midway(turn, Proposed(rows, Proposal(queue[i], c.value)), queue, readable, i + 1, n + 1, end)
  {
    assert queue[i..][1..] == queue[i + 1..] && queue[i..][0] == queue[i];
  }

  lemma MatchEnds(turn: TurnFor, rows: seq<Staged>, queue: seq<nat>, readable: nat -> bool, i: nat, n: nat, end: (seq<Staged>, nat))
    requires Midway(turn, rows, queue, readable, i, n, end) && (i == |queue| || !readable(queue[i]))
    ensures end == (rows, n)
  {
  }

  function Stamp(rows: seq<Staged>, k: nat): int { if k < |rows| then rows[k].stamp else 0 }

  function OlderAmong(rows: seq<Staged>): (nat, nat) -> bool { (a: nat, b: nat) => Stamp(rows, a) < Stamp(rows, b) }

  function Queue(rows: seq<Staged>): seq<nat> {
    Ordering.Sorted(EligibleOnes(rows, |rows|), OlderAmong(rows))
  }

  lemma QueueIsEligible(rows: seq<Staged>)
    ensures forall k | 0 <= k < |Queue(rows)| :: Queue(rows)[k] < |rows| && Eligible(rows[Queue(rows)[k]])
  {
    forall k | 0 <= k < |Queue(rows)| ensures Queue(rows)[k] < |rows| && Eligible(rows[Queue(rows)[k]]) {
      Ordering.SortedHolds(EligibleOnes(rows, |rows|), OlderAmong(rows), Queue(rows)[k]);
    }
  }

  class Matcher {
    const w: World
    var rows: seq<Staged>

    constructor (w: World, rows: seq<Staged>)
      ensures this.w == w && this.rows == rows
    {
      this.w := w;
      this.rows := rows;
    }

    // MatchRefunds: n counts the refunds matched; done is false when one could not be read.
    method MatchRefunds(readable: nat -> bool) returns (n: nat, done: bool)
      modifies this
      ensures forall k | 0 <= k < |Queue(old(rows))| :: Queue(old(rows))[k] < |old(rows)|
      ensures rows == MatchAll(TurnOf(w), old(rows), Queue(old(rows)), readable).0
      ensures n == |MatchAll(TurnOf(w), old(rows), Queue(old(rows)), readable).1|
      ensures done <==> forall k | 0 <= k < |Queue(old(rows))| :: readable(Queue(old(rows))[k])
    {
      QueueIsEligible(rows);
      n, done := MatchQueue(Queue(rows), readable);
    }

    // The loop over the queue.
    method MatchQueue(queue: seq<nat>, readable: nat -> bool) returns (n: nat, done: bool)
      requires forall k | 0 <= k < |queue| :: queue[k] < |rows|
      modifies this
      ensures rows == MatchAll(TurnOf(w), old(rows), queue, readable).0
      ensures n == |MatchAll(TurnOf(w), old(rows), queue, readable).1|
      ensures done <==> forall k | 0 <= k < |queue| :: readable(queue[k])
    {
      ghost var turn := TurnOf(w);
      ghost var whole := MatchAll(turn, rows, queue, readable);
      ghost var end := (whole.0, |whole.1|);
      MatchBegins(turn, rows, queue, readable);
      n := 0;
      for i := 0 to |queue|
        invariant Midway(turn, rows, queue, readable, i, n, end) && forall k | 0 <= k < i :: readable(queue[k])
      {
        if !readable(queue[i]) {
          MatchEnds(turn, rows, queue, readable, i, n, end);
          return n, false;
        }
        MatchStep(turn, rows, queue, readable, i, n, end);
        var matched := TakeTurn(queue[i]);
        if matched {
          n := n + 1;
        }
      }
      MatchEnds(turn, rows, queue, readable, |queue|, n, end);
      return n, true;
    }

    // One refund: its candidates, the pick, and the proposal when it is a confident one.
    method TakeTurn(u: nat) returns (matched: bool)
      requires u < |rows|
      modifies this
      ensures var c := TurnOf(w)(old(rows), u);
        && matched == c.Some? && |rows| == |old(rows)|
        && rows == if c.None? then old(rows) else Proposed(old(rows), Proposal(u, c.value))
    {
      var cands := FindRefundCandidates(w, rows, u);
      var best := PickRefundCandidate(cands);
      if best.chosen.None? || best.confidence < w.threshold {
        return false;
      }
      rows := rows[u := rows[u].(proposedRef := Some(best.chosen.value.ref))];
      return true;
    }
  }

  // ---- conservation -----------------------------------------------------------------------------------------

  ghost predicate OneOfEach(w: World, rows: seq<Staged>) {
    && (forall k, l | 0 <= k < l < |rows| :: rows[k].uuid != rows[l].uuid)
    && (forall k, l | 0 <= k < l < |w.journals| :: w.journals[k].id != w.journals[l].id)
  }

  // What refunds point at a purchase does not exceed what was paid.
  ghost predicate Within(w: World, rows: seq<Staged>, ref: Ref) {
    match ref
    case NoRef => true
    case FoldRef(u) => forall r | 0 <= r < |rows| && rows[r].uuid == u :: ClaimsOn(rows, ref) <= rows[r].amount
    case JournalRef(id) => forall j | 0 <= j < |w.journals| && w.journals[j].id == id :: ClaimsOn(rows, ref) <= w.journals[j].amount
  }

  lemma {:induction false} KeptWasKept(rows: seq<Staged>, i: nat, all: seq<Candidate>, c: Candidate)
    requires i < |rows| && c in Kept(rows, i, all)
    ensures exists k | 0 <= k < |all| :: Keeps(rows, i, all[k]) && c == Weighed(rows[i], all[k])
  {
    if c in Kept(rows, i, all[..|all| - 1]) {
      KeptWasKept(rows, i, all[..|all| - 1], c);
      var k :| 0 <= k < |all| - 1 && Keeps(rows, i, all[..|all| - 1][k]) && c == Weighed(rows[i], all[..|all| - 1][k]);
      assert Keeps(rows, i, all[k]);
    } else {
      assert Keeps(rows, i, all[|all| - 1]);
    }
  }

  // A candidate names a purchase with its amount, and leaves room for the refund unless
  // fold.money grouped the two.
  lemma {:induction false} CandidateHasRoom(w: World, rows: seq<Staged>, i: nat, c: Candidate)
    requires i < |rows| && c in Candidates(w, rows, i)
    ensures Names(w, rows, c)
    ensures !c.groupMatch ==> Claims(rows, c.ref, i, |rows|) + rows[i].amount <= c.amount
  {
    var all := All(w, rows, i);
    Ordering.SortedHolds(Kept(rows, i, all), Better, c);
    KeptWasKept(rows, i, all, c);
    var k :| 0 <= k < |all| && Keeps(rows, i, all[k]) && c == Weighed(rows[i], all[k]);
    NamesAPurchase(w, rows, i, k);
  }

  // The card a purchase was paid on is the one its refund landed on: by fold's account when both have
  // one, else by Firefly's asset when both have one; and with no card known of the refund, any.
  predicate CardIs(refund: Staged, account: string, asset: int) {
    || (refund.account != "" && account != "" && refund.account == account)
    || ((refund.account == "" || account == "") && refund.card != 0 && asset != 0 && refund.card == asset)
    || (refund.account == "" && refund.card == 0)
  }

  // The conditions under which one purchase, staged or Firefly's own, is a candidate for a refund, in
  // numbers: no later than a minute after it and no earlier than 180 days before, where both times can
  // be read, and with as much left as the refund gives back; a group match needs neither.
  predicate FitsInNumbers(refund: Staged, amount: int, claimed: int, when: Option<int>, grouped: bool) {
    grouped
    || (amount - claimed >= refund.amount
        && (refund.when.Some? && when.Some? ==>
              when.value - refund.when.value <= 60 * 1_000_000_000
              && refund.when.value - when.value <= 180 * 24 * 3600 * 1_000_000_000))
  }

  // A staged row that goes out, is not skipped and is not the refund, of the refund's merchant or in
  // its group, and on its card.
  predicate IsStagedPurchase(refund: Staged, row: Staged, c: Candidate) {
    var merchant := if refund.merchant != "" then refund.merchant else refund.payer;
    && c.ref == FoldRef(row.uuid) && c.amount == row.amount && c.when == row.when && c.journalId == row.journalId
    && (c.groupMatch <==> refund.group != "" && row.group == refund.group)
    && !row.incoming && row.status != Skipped && row.uuid != refund.uuid
    && (c.groupMatch || (merchant != "" && (row.merchant == merchant || row.payee == merchant)))
    && CardIs(refund, row.account, row.srcAsset)
  }

  // A withdrawal of Firefly's, of the merchant and on the refund's card, not the refund's own.
  predicate IsMirroredPurchase(w: World, refund: Staged, j: Mirrored, c: Candidate) {
    var merchant := if refund.merchant != "" then refund.merchant else refund.payer;
    && c.ref == JournalRef(j.id) && c.amount == j.amount && c.when == j.when && c.journalId == j.id && !c.groupMatch
    && refund.card != 0 && j.srcAsset == refund.card && j.external != Some(refund.uuid)
    && merchant != ""
    && (j.payeeNormalized == merchant || j.payee == merchant || (|merchant| >= 4 && w.mentions(j.notes, merchant)))
  }

  // No staged purchase of the refund's stands for a journal.
  predicate NotStaged(refund: Staged, rows: seq<Staged>, journalId: int) {
    journalId == 0 || forall r | 0 <= r < |rows| && StagedMatch(refund, rows[r]) :: rows[r].journalId != journalId
  }

  lemma StagedIsAPurchase(rows: seq<Staged>, i: nat, r: nat, c: Candidate)
    requires i < |rows| && r < |rows| && StagedMatch(rows[i], rows[r])
    requires Keeps(rows, i, FromStaged(rows[i], rows[r])) && c == Weighed(rows[i], FromStaged(rows[i], rows[r]))
    ensures IsStagedPurchase(rows[i], rows[r], c) && (c.exact <==> c.amount == rows[i].amount)
    ensures FitsInNumbers(rows[i], c.amount, ClaimedOn(rows, i, c.ref, c.journalId), c.when, c.groupMatch)
  {
  }

  lemma MirroredIsAPurchase(w: World, rows: seq<Staged>, i: nat, j: nat, c: Candidate)
    requires i < |rows| && j < |w.journals| && JournalMatch(w, rows[i], w.journals[j]) && w.journals[j].external != Some(rows[i].uuid)
    requires Keeps(rows, i, FromJournal(rows[i], w.journals[j])) && c == Weighed(rows[i], FromJournal(rows[i], w.journals[j]))
    ensures IsMirroredPurchase(w, rows[i], w.journals[j], c) && (c.exact <==> c.amount == rows[i].amount)
    ensures FitsInNumbers(rows[i], c.amount, ClaimedOn(rows, i, c.ref, c.journalId), c.when, c.groupMatch)
  {
  }

  ghost predicate IsPurchase(w: World, rows: seq<Staged>, refund: Staged, c: Candidate) {
    || (exists r | 0 <= r < |rows| :: IsStagedPurchase(refund, rows[r], c))
    || (exists j | 0 <= j < |w.journals| :: IsMirroredPurchase(w, refund, w.journals[j], c) && NotStaged(refund, rows, w.journals[j].id))
  }

  lemma StagedOneIsAPurchase(w: World, rows: seq<Staged>, i: nat, k: nat, c: Candidate)
    requires i < |rows| && k < |StagedOnes(rows[i], rows, |rows|)|
    requires var one := StagedOnes(rows[i], rows, |rows|)[k]; Keeps(rows, i, one) && c == Weighed(rows[i], one)
    ensures IsPurchase(w, rows, rows[i], c) && (c.exact <==> c.amount == rows[i].amount)
    ensures FitsInNumbers(rows[i], c.amount, ClaimedOn(rows, i, c.ref, c.journalId), c.when, c.groupMatch)
  {
    var r := StagedOnesMatch(rows[i], rows, |rows|, k);
    StagedIsAPurchase(rows, i, r, c);
  }

  lemma MirroredOneIsAPurchase(w: World, rows: seq<Staged>, i: nat, found: seq<Candidate>, k: nat, c: Candidate)
    requires i < |rows| && found == StagedOnes(rows[i], rows, |rows|) && k < |JournalOnes(w, rows[i], found, |w.journals|)|
    requires var one := JournalOnes(w, rows[i], found, |w.journals|)[k]; Keeps(rows, i, one) && c == Weighed(rows[i], one)
    ensures IsPurchase(w, rows, rows[i], c) && (c.exact <==> c.amount == rows[i].amount)
    ensures FitsInNumbers(rows[i], c.amount, ClaimedOn(rows, i, c.ref, c.journalId), c.when, c.groupMatch)
  {
    var j := JournalOnesMatch(w, rows[i], found, |w.journals|, k);
    MirroredIsAPurchase(w, rows, i, j, c);
    NobodyStandsFor(rows[i], rows, w.journals[j].id);
  }

  lemma CandidateWasKept(w: World, rows: seq<Staged>, i: nat, c: Candidate) returns (k: nat)
    requires i < |rows| && c in Candidates(w, rows, i)
    ensures k < |All(w, rows, i)| && Keeps(rows, i, All(w, rows, i)[k]) && c == Weighed(rows[i], All(w, rows, i)[k])
  {
    var all := All(w, rows, i);
    Ordering.SortedHolds(Kept(rows, i, all), Better, c);
    KeptWasKept(rows, i, all, c);
    k :| 0 <= k < |all| && Keeps(rows, i, all[k]) && c == Weighed(rows[i], all[k]);
  }

  // A candidate is one or the other, in time and with room.
  lemma CandidateIsAPurchase(w: World, rows: seq<Staged>, i: nat, c: Candidate)
    requires i < |rows| && c in Candidates(w, rows, i)
    ensures IsPurchase(w, rows, rows[i], c) && (c.exact <==> c.amount == rows[i].amount)
    ensures FitsInNumbers(rows[i], c.amount, ClaimedOn(rows, i, c.ref, c.journalId), c.when, c.groupMatch)
  {
    var k := CandidateWasKept(w, rows, i, c);
    var staged := StagedOnes(rows[i], rows, |rows|);
    OneOfAll(w, rows, i, staged, k);
    if k < |staged| {
      StagedOneIsAPurchase(w, rows, i, k, c);
    } else {
      MirroredOneIsAPurchase(w, rows, i, staged, k - |staged|, c);
    }
  }

  lemma OneOfAll(w: World, rows: seq<Staged>, i: nat, staged: seq<Candidate>, k: nat)
    requires i < |rows| && staged == StagedOnes(rows[i], rows, |rows|) && k < |All(w, rows, i)|
    ensures k < |staged| ==> All(w, rows, i)[k] == staged[k]
    ensures k >= |staged| ==>
      var mirrored := JournalOnes(w, rows[i], staged, |w.journals|);
      k - |staged| < |mirrored| && All(w, rows, i)[k] == mirrored[k - |staged|]
  {
  }

  lemma {:induction false} StagedOnesMatch(refund: Staged, rows: seq<Staged>, n: nat, k: nat) returns (r: nat)
    requires n <= |rows| && k < |StagedOnes(refund, rows, n)|
    ensures r < n && StagedOnes(refund, rows, n)[k] == FromStaged(refund, rows[r]) && StagedMatch(refund, rows[r])
  {
    if k < |StagedOnes(refund, rows, n - 1)| {
      r := StagedOnesMatch(refund, rows, n - 1, k);
    } else {
      r := n - 1;
    }
  }

  lemma {:induction false} JournalOnesMatch(w: World, refund: Staged, found: seq<Candidate>, n: nat, k: nat) returns (j: nat)
    requires n <= |w.journals| && k < |JournalOnes(w, refund, found, n)|
    ensures j < n && JournalOnes(w, refund, found, n)[k] == FromJournal(refund, w.journals[j])
    ensures JournalMatch(w, refund, w.journals[j]) && w.journals[j].external != Some(refund.uuid)
    ensures !StandsFor(found, w.journals[j].id)
  {
    if k < |JournalOnes(w, refund, found, n - 1)| {
      j := JournalOnesMatch(w, refund, found, n - 1, k);
    } else {
      j := n - 1;
    }
  }

  // Nothing fit is missed: every staged purchase that is so is a candidate, and so is every journal of
  // Firefly's no staged one stands for.
  lemma StagedPurchaseIsListed(w: World, rows: seq<Staged>, i: nat, r: nat)
    requires i < |rows| && r < |rows| && !rows[r].incoming && rows[r].status != Skipped && rows[r].uuid != rows[i].uuid
    requires var merchant := if rows[i].merchant != "" then rows[i].merchant else rows[i].payer;
      var grouped := rows[i].group != "" && rows[r].group == rows[i].group;
      && (grouped || (merchant != "" && (rows[r].merchant == merchant || rows[r].payee == merchant)))
      && CardIs(rows[i], rows[r].account, rows[r].srcAsset)
      && FitsInNumbers(rows[i], rows[r].amount, ClaimedOn(rows, i, FoldRef(rows[r].uuid), rows[r].journalId), rows[r].when, grouped)
    ensures exists c | c in Candidates(w, rows, i) ::
      && c.ref == FoldRef(rows[r].uuid) && c.amount == rows[r].amount && c.when == rows[r].when
      && (c.groupMatch <==> rows[i].group != "" && rows[r].group == rows[i].group)
      && (c.exact <==> rows[r].amount == rows[i].amount)
  {
    var c := FromStaged(rows[i], rows[r]);
    assert Keeps(rows, i, c) && StagedMatch(rows[i], rows[r]);
    StagedOnesHold(rows[i], rows, |rows|, r);
    KeepsWhatFits(rows, i, All(w, rows, i), c);
    Ordering.SortedHolds(Kept(rows, i, All(w, rows, i)), Better, Weighed(rows[i], c));
    assert Weighed(rows[i], c) in Candidates(w, rows, i);
  }

  lemma JournalPurchaseIsListed(w: World, rows: seq<Staged>, i: nat, j: nat)
    requires i < |rows| && j < |w.journals| && w.journals[j].external != Some(rows[i].uuid)
    requires NotStaged(rows[i], rows, w.journals[j].id)
    requires var merchant := if rows[i].merchant != "" then rows[i].merchant else rows[i].payer;
      && rows[i].card != 0 && w.journals[j].srcAsset == rows[i].card && merchant != ""
      && (w.journals[j].payeeNormalized == merchant || w.journals[j].payee == merchant
          || (|merchant| >= 4 && w.mentions(w.journals[j].notes, merchant)))
      && FitsInNumbers(rows[i], w.journals[j].amount, ClaimedOn(rows, i, JournalRef(w.journals[j].id), w.journals[j].id),
                       w.journals[j].when, false)
    ensures exists c | c in Candidates(w, rows, i) ::
      && c.ref == JournalRef(w.journals[j].id) && c.amount == w.journals[j].amount && c.when == w.journals[j].when
      && !c.groupMatch && (c.exact <==> w.journals[j].amount == rows[i].amount)
  {
    var c := FromJournal(rows[i], w.journals[j]);
    var staged := StagedOnes(rows[i], rows, |rows|);
    NobodyStandsFor(rows[i], rows, w.journals[j].id);
    assert Keeps(rows, i, c) && JournalMatch(w, rows[i], w.journals[j]);
    JournalOnesHold(w, rows[i], staged, |w.journals|, j);
    KeepsWhatFits(rows, i, All(w, rows, i), c);
    Ordering.SortedHolds(Kept(rows, i, All(w, rows, i)), Better, Weighed(rows[i], c));
    assert Weighed(rows[i], c) in Candidates(w, rows, i);
  }

  lemma NobodyStandsFor(refund: Staged, rows: seq<Staged>, journalId: int)
    ensures NotStaged(refund, rows, journalId) <==> !StandsFor(StagedOnes(refund, rows, |rows|), journalId)
  {
    var staged := StagedOnes(refund, rows, |rows|);
    forall k | 0 <= k < |staged| ensures exists r | 0 <= r < |rows| :: StagedMatch(refund, rows[r]) && staged[k].journalId == rows[r].journalId {
      var r := StagedOnesMatch(refund, rows, |rows|, k);
    }
    forall r | 0 <= r < |rows| && StagedMatch(refund, rows[r]) ensures FromStaged(refund, rows[r]) in staged {
      StagedOnesHold(refund, rows, |rows|, r);
    }
  }

  // What a row claims is its own amount, for the one reference it stands for, a person's before the
  // classifier's, unless it is skipped; whatever the other rows claim.
  lemma {:induction false} ClaimsChange(rows: seq<Staged>, k: nat, row: Staged, ref: Ref, but: int, n: nat)
    requires k < |rows| && n <= |rows|
    ensures Claims(rows[k := row], ref, but, n) - OwnClaim(row, ref, k != but && k < n)
         == Claims(rows, ref, but, n) - OwnClaim(rows[k], ref, k != but && k < n)
  {
    if n > 0 {
      ClaimsChange(rows, k, row, ref, but, n - 1);
    }
  }

  function OwnClaim(row: Staged, ref: Ref, counts: bool): int {
    if counts && row.status != Skipped
       && (if row.confirmedRef.Some? then row.confirmedRef.value == ref
           else if row.proposedRef.Some? then row.proposedRef.value == ref else ref == NoRef)
    then row.amount else 0
  }

  lemma ClaimedOnChange(rows: seq<Staged>, k: nat, row: Staged, i: nat, ref: Ref, journalId: int)
    requires k < |rows|
    ensures var journal := JournalRef(journalId);
      ClaimedOn(rows[k := row], i, ref, journalId)
        - OwnClaim(row, ref, k != i) - OwnClaim(row, journal, k != i && journalId != 0)
      == ClaimedOn(rows, i, ref, journalId)
        - OwnClaim(rows[k], ref, k != i) - OwnClaim(rows[k], journal, k != i && journalId != 0)
  {
    ClaimsChange(rows, k, row, ref, i, |rows|);
    ClaimsChange(rows, k, row, JournalRef(journalId), i, |rows|);
  }

  // And where nobody else points at anything, nothing is claimed.
  lemma {:induction false} NobodyClaims(rows: seq<Staged>, i: nat, ref: Ref, journalId: int, n: nat)
    requires n <= |rows| && !ref.NoRef?
    requires forall k | 0 <= k < |rows| && k != i :: rows[k].confirmedRef.None? && rows[k].proposedRef.None?
    ensures Claims(rows, ref, i, n) == 0 && (n == |rows| ==> ClaimedOn(rows, i, ref, journalId) == 0)
    decreases n
  {
    if n > 0 {
      NobodyClaims(rows, i, ref, journalId, n - 1);
      NobodyClaims(rows, i, JournalRef(journalId), journalId, n - 1);
    }
  }

  // The order of the list: what fold.money grouped, then the exact amounts, then the latest; a time
  // that cannot be read is before every other.
  lemma CandidatesAreInOrder(w: World, rows: seq<Staged>, i: nat, k: nat, l: nat)
    requires i < |rows| && k < l < |Candidates(w, rows, i)|
    ensures var a, b := Candidates(w, rows, i)[k], Candidates(w, rows, i)[l];
      && (b.groupMatch ==> a.groupMatch)
      && (a.groupMatch == b.groupMatch ==> (b.exact ==> a.exact))
      && (a.groupMatch == b.groupMatch && a.exact == b.exact && b.when.Some? ==>
            a.when.Some? && a.when.value >= b.when.value)
  {
    BetterIsWeak();
    Ordering.SortedNeverLater(Kept(rows, i, All(w, rows, i)), Better);
    assert !Better(Candidates(w, rows, i)[l], Candidates(w, rows, i)[k]);
  }

  lemma {:induction false} StagedOnesHold(refund: Staged, rows: seq<Staged>, n: nat, r: nat)
    requires r < n <= |rows| && StagedMatch(refund, rows[r])
    ensures FromStaged(refund, rows[r]) in StagedOnes(refund, rows, n)
  {
    if r < n - 1 {
      StagedOnesHold(refund, rows, n - 1, r);
    }
  }

  lemma {:induction false} JournalOnesHold(w: World, refund: Staged, found: seq<Candidate>, n: nat, j: nat)
    requires j < n <= |w.journals| && JournalMatch(w, refund, w.journals[j])
    requires !StandsFor(found, w.journals[j].id) && w.journals[j].external != Some(refund.uuid)
    ensures FromJournal(refund, w.journals[j]) in JournalOnes(w, refund, found, n)
  {
    if j < n - 1 {
      JournalOnesHold(w, refund, found, n - 1, j);
    }
  }

  lemma {:induction false} KeepsWhatFits(rows: seq<Staged>, i: nat, all: seq<Candidate>, c: Candidate)
    requires i < |rows| && c in all && Keeps(rows, i, c)
    ensures Weighed(rows[i], c) in Kept(rows, i, all)
  {
    if c in all[..|all| - 1] {
      KeepsWhatFits(rows, i, all[..|all| - 1], c);
    } else {
      assert all == all[..|all| - 1] + [all[|all| - 1]];
    }
  }

  // An undecided refund claims nothing; deciding it adds its amount to one reference.
  lemma {:induction false} ClaimsAfter(rows: seq<Staged>, p: Proposal, ref: Ref, n: nat)
    requires p.row < |rows| && n <= |rows| && Undecided(rows[p.row]) && !ref.NoRef?
    ensures Claims(rows, ref, -1, n) == Claims(rows, ref, p.row, n)
    ensures Claims(Proposed(rows, p), ref, -1, n)
         == Claims(rows, ref, -1, n)
            + if p.row < n && p.chosen.ref == ref && rows[p.row].status != Skipped then rows[p.row].amount else 0
  {
    if n > 0 {
      ClaimsAfter(rows, p, ref, n - 1);
    }
  }

  lemma PickIsACandidate(cands: seq<Candidate>)
    ensures Picked(cands).chosen.Some? ==> Picked(cands).chosen.value in cands
  {
  }

  predicate GroupedAt(proposals: seq<Proposal>, ref: Ref) {
    exists k | 0 <= k < |proposals| :: proposals[k].chosen.groupMatch && proposals[k].chosen.ref == ref
  }

  // A table as it should be, for one reference.
  ghost predicate Sound(w: World, rows: seq<Staged>, ref: Ref) { OneOfEach(w, rows) && Within(w, rows, ref) }

  // A turn that keeps a table sound, unless it proposes a group match for the reference.
  ghost predicate Conserves(turn: TurnFor, sound: seq<Staged> -> bool, ref: Ref) {
    forall rows, i: nat | sound(rows) && i < |rows| && Undecided(rows[i]) && turn(rows, i).Some? ::
      sound(Proposed(rows, Proposal(i, turn(rows, i).value)))
      || (turn(rows, i).value.groupMatch && turn(rows, i).value.ref == ref)
  }

  lemma OneTurnConserves(w: World, rows: seq<Staged>, i: nat, ref: Ref)
    requires Sound(w, rows, ref) && i < |rows| && Undecided(rows[i]) && Turn(w, rows, i).Some?
    ensures var c := Turn(w, rows, i).value;
      Sound(w, Proposed(rows, Proposal(i, c)), ref) || (c.groupMatch && c.ref == ref)
  {
    var c := Turn(w, rows, i).value;
    PickIsACandidate(Candidates(w, rows, i));
    CandidateHasRoom(w, rows, i, c);
    if c.ref != ref {
      ElsewhereIsKept(w, rows, Proposal(i, c), ref);
    } else if !c.groupMatch {
      RoomIsKept(w, rows, Proposal(i, c));
    }
  }

  lemma ElsewhereIsKept(w: World, rows: seq<Staged>, p: Proposal, ref: Ref)
    requires Sound(w, rows, ref) && p.row < |rows| && Undecided(rows[p.row]) && p.chosen.ref != ref
    ensures Sound(w, Proposed(rows, p), ref)
  {
    if !ref.NoRef? {
      ClaimsAfter(rows, p, ref, |rows|);
    }
  }

  // A purchase is paid for once, so its candidate's amount is its own.
  lemma WithinTheNamed(w: World, rows: seq<Staged>, c: Candidate)
    requires OneOfEach(w, rows) && Names(w, rows, c) && ClaimsOn(rows, c.ref) <= c.amount
    ensures Within(w, rows, c.ref)
  {
  }

  lemma ProposalKeepsNames(w: World, rows: seq<Staged>, p: Proposal, c: Candidate)
    requires p.row < |rows| && Names(w, rows, c)
    ensures Names(w, Proposed(rows, p), c)
  {
    if c.ref.FoldRef? {
      var r :| 0 <= r < |rows| && rows[r].uuid == c.ref.uuid && c.amount == rows[r].amount && !rows[r].incoming;
      assert Proposed(rows, p)[r].uuid == c.ref.uuid;
    }
  }

  lemma RoomIsKept(w: World, rows: seq<Staged>, p: Proposal)
    requires OneOfEach(w, rows) && p.row < |rows| && Undecided(rows[p.row]) && Names(w, rows, p.chosen)
    requires Claims(rows, p.chosen.ref, p.row, |rows|) + rows[p.row].amount <= p.chosen.amount
    ensures Sound(w, Proposed(rows, p), p.chosen.ref)
  {
    ClaimsAfter(rows, p, p.chosen.ref, |rows|);
    ProposalKeepsNames(w, rows, p, p.chosen);
    assert OneOfEach(w, Proposed(rows, p));
    WithinTheNamed(w, Proposed(rows, p), p.chosen);
  }

  lemma TurnConserves(w: World, ref: Ref)
    ensures Conserves(TurnOf(w), rows => Sound(w, rows, ref), ref)
  {
    forall rows, i: nat | Sound(w, rows, ref) && i < |rows| && Undecided(rows[i]) && TurnOf(w)(rows, i).Some?
      ensures Sound(w, Proposed(rows, Proposal(i, TurnOf(w)(rows, i).value)), ref)
        || (TurnOf(w)(rows, i).value.groupMatch && TurnOf(w)(rows, i).value.ref == ref)
    {
      OneTurnConserves(w, rows, i, ref);
    }
  }

  lemma OthersStayUndecided(rows: seq<Staged>, p: Proposal, queue: seq<nat>)
    requires queue != [] && p.row == queue[0]
    requires forall k | 0 <= k < |queue| :: queue[k] < |rows| && Undecided(rows[queue[k]])
    requires forall k, l | 0 <= k < l < |queue| :: queue[k] != queue[l]
    ensures forall k | 0 <= k < |queue| - 1 :: Undecided(Proposed(rows, p)[queue[1..][k]])
  {
    forall k | 0 <= k < |queue| - 1 ensures Proposed(rows, p)[queue[1..][k]] == rows[queue[k + 1]] {
      assert queue[0] != queue[k + 1];
    }
  }

  // Over a whole run, and a run cut short, a table stays sound but for group matches.
  lemma {:induction false} RunConserves(turn: TurnFor, sound: seq<Staged> -> bool, rows: seq<Staged>, queue: seq<nat>,
                                        readable: nat -> bool, ref: Ref)
    requires Conserves(turn, sound, ref) && sound(rows)
    requires forall k | 0 <= k < |queue| :: queue[k] < |rows| && Undecided(rows[queue[k]])
    requires forall k, l | 0 <= k < l < |queue| :: queue[k] != queue[l]
    ensures var end := MatchAll(turn, rows, queue, readable);
      sound(end.0) || GroupedAt(end.1, ref)
    decreases |queue|
  {
    if queue != [] && readable(queue[0]) {
      var c := turn(rows, queue[0]);
      if c.None? {
        RunConserves(turn, sound, rows, queue[1..], readable, ref);
      } else {
        var p := Proposal(queue[0], c.value);
        var next := Proposed(rows, p);
        var later := MatchAll(turn, next, queue[1..], readable).1;
        OthersStayUndecided(rows, p, queue);
        if sound(next) {
          RunConserves(turn, sound, next, queue[1..], readable, ref);
          if GroupedAt(later, ref) {
            var k :| 0 <= k < |later| && later[k].chosen.groupMatch && later[k].chosen.ref == ref;
            assert ([p] + later)[k + 1] == later[k];
          }
        } else {
          assert ([p] + later)[0] == p;
        }
      }
    }
  }

  // From a table where no reference is over-claimed, MatchRefunds leaves none that is, but for
  // group matches; every proposal it makes is for a refund nobody had decided, whose row is
  // otherwise left as it was.
  lemma MatchRefundsConserves(w: World, rows: seq<Staged>, readable: nat -> bool, ref: Ref)
    requires OneOfEach(w, rows) && Within(w, rows, ref)
    ensures forall k | 0 <= k < |Queue(rows)| :: Queue(rows)[k] < |rows|
    ensures var end := MatchAll(TurnOf(w), rows, Queue(rows), readable);
      && (Within(w, end.0, ref) || GroupedAt(end.1, ref))
      && forall k | 0 <= k < |rows| ::
           end.0[k] == rows[k] || (Eligible(rows[k]) && end.0[k] == rows[k].(proposedRef := end.0[k].proposedRef))
  {
    QueueIsEligible(rows);
    QueueIsDistinct(rows);
    TurnConserves(w, ref);
    RunConserves(TurnOf(w), rows => Sound(w, rows, ref), rows, Queue(rows), readable, ref);
    OnlyTheQueue(TurnOf(w), rows, Queue(rows), readable);
  }

  lemma {:induction false} OnlyTheQueue(turn: TurnFor, rows: seq<Staged>, queue: seq<nat>, readable: nat -> bool)
    requires forall k | 0 <= k < |queue| :: queue[k] < |rows|
    ensures var rows' := MatchAll(turn, rows, queue, readable).0;
      forall k | 0 <= k < |rows| ::
        rows'[k] == rows[k].(proposedRef := rows'[k].proposedRef) && (k !in queue ==> rows'[k] == rows[k])
    decreases |queue|
  {
    if queue != [] && readable(queue[0]) {
      var c := turn(rows, queue[0]);
      OnlyTheQueue(turn, if c.None? then rows else Proposed(rows, Proposal(queue[0], c.value)), queue[1..], readable);
      assert queue == [queue[0]] + queue[1..];
    }
  }

  lemma QueueIsDistinct(rows: seq<Staged>)
    ensures forall k, l | 0 <= k < l < |Queue(rows)| :: Queue(rows)[k] != Queue(rows)[l]
  {
    Ordering.SortedIsDistinct(EligibleOnes(rows, |rows|), OlderAmong(rows));
  }

  // A person's decision is never touched, nor a proposal already made.
  lemma DecidedIsLeftAlone(w: World, rows: seq<Staged>, readable: nat -> bool, k: nat)
    requires OneOfEach(w, rows) && k < |rows| && !Undecided(rows[k])
    ensures forall q | 0 <= q < |Queue(rows)| :: Queue(rows)[q] < |rows|
    ensures MatchAll(TurnOf(w), rows, Queue(rows), readable).0[k] == rows[k]
  {
    MatchRefundsConserves(w, rows, readable, NoRef);
  }

  // The queue: every refund that waits or was pushed, looks like one, and has neither a person's word
  // nor a proposal on its purchase; oldest first.
  lemma QueueMeans(rows: seq<Staged>, k: nat)
    requires k < |rows|
    ensures k in Queue(rows) <==>
      && rows[k].incoming && rows[k].status in {NeedsReview, ReadyToPush, Pushed} && rows[k].suspect
      && rows[k].proposedRef == None && rows[k].confirmedRef == None
    ensures forall i, j | 0 <= i < j < |Queue(rows)| ::
      Queue(rows)[i] < |rows| && Queue(rows)[j] < |rows| && rows[Queue(rows)[i]].stamp <= rows[Queue(rows)[j]].stamp
  {
    var queue := EligibleOnes(rows, |rows|);
    Ordering.SortedHolds(queue, OlderAmong(rows), k);
    EligibleOnesHold(rows, |rows|, k);
    QueueIsEligible(rows);
    Ordering.SortedNeverLater(queue, OlderAmong(rows));
    forall i, j | 0 <= i < j < |Queue(rows)|
      ensures Queue(rows)[i] < |rows| && Queue(rows)[j] < |rows| && rows[Queue(rows)[i]].stamp <= rows[Queue(rows)[j]].stamp {
      assert !OlderAmong(rows)(Queue(rows)[j], Queue(rows)[i]);
    }
  }

  lemma {:induction false} EligibleOnesHold(rows: seq<Staged>, n: nat, k: nat)
    requires n <= |rows| && k < |rows|
    ensures k in EligibleOnes(rows, n) <==> k < n && Eligible(rows[k])
  {
    if n > 0 {
      EligibleOnesHold(rows, n - 1, k);
    }
  }

  // Proposing to one row changes no purchase of another's, nor of its own.
  lemma ProposingKeepsPurchases(w: World, rows: seq<Staged>, p: Proposal, i: nat, c: Candidate)
    requires p.row < |rows| && i < |rows| && IsPurchase(w, Proposed(rows, p), Proposed(rows, p)[i], c)
    ensures IsPurchase(w, rows, rows[i], c)
  {
    var rows' := Proposed(rows, p);
    if r :| 0 <= r < |rows'| && IsStagedPurchase(rows'[i], rows'[r], c) {
      assert IsStagedPurchase(rows[i], rows[r], c);
    } else {
      var j :| 0 <= j < |w.journals| && IsMirroredPurchase(w, rows'[i], w.journals[j], c) && NotStaged(rows'[i], rows', w.journals[j].id);
      assert IsMirroredPurchase(w, rows[i], w.journals[j], c);
      assert forall r | 0 <= r < |rows| && StagedMatch(rows[i], rows[r]) :: StagedMatch(rows'[i], rows'[r]);
      assert NotStaged(rows[i], rows, w.journals[j].id);
    }
  }

  // Whatever a run proposes is a purchase of that refund's, and unless fold.money grouped the two it
  // was made no later than a minute after the refund and no earlier than 180 days before, where both
  // times can be read, and was of no less.
  lemma {:induction false} ProposalsArePurchases(w: World, rows: seq<Staged>, queue: seq<nat>, readable: nat -> bool, k: nat)
    requires forall q | 0 <= q < |queue| :: queue[q] < |rows|
    requires k < |MatchAll(TurnOf(w), rows, queue, readable).1|
    ensures var p := MatchAll(TurnOf(w), rows, queue, readable).1[k];
      && p.row < |rows| && IsPurchase(w, rows, rows[p.row], p.chosen)
      && (p.chosen.groupMatch
          || (p.chosen.amount >= rows[p.row].amount
              && (rows[p.row].when.Some? && p.chosen.when.Some? ==>
                    p.chosen.when.value - rows[p.row].when.value <= 60 * 1_000_000_000
                    && rows[p.row].when.value - p.chosen.when.value <= 180 * 24 * 3600 * 1_000_000_000)))
    decreases |queue|
  {
    var i := queue[0];
    var turn := TurnOf(w)(rows, i);
    if turn.None? {
      ProposalsArePurchases(w, rows, queue[1..], readable, k);
    } else if k == 0 {
      PickIsACandidate(Candidates(w, rows, i));
      CandidateIsAPurchase(w, rows, i, turn.value);
    } else {
      var p := Proposal(i, turn.value);
      ProposalsArePurchases(w, Proposed(rows, p), queue[1..], readable, k - 1);
      var later := MatchAll(TurnOf(w), Proposed(rows, p), queue[1..], readable).1[k - 1];
      ProposingKeepsPurchases(w, rows, p, later.row, later.chosen);
    }
  }
}

// Putting the user's own account back where fold.money says it is (classifier/repair.go).
module Repair {
  import opened Staging
  import opened Wrappers
  import opened Text
  import opened TxnType

  datatype Row = Row(
    direction: string, status: Status, manual: bool,
    confType: string, propType: string,
    src: StoredSide, dst: StoredSide)

  datatype Change = Filled | SwappedOver

  // The mirror, and what the ledger's history calls an account the mirror has no name for.
  datatype World = World(mirror: Mirror, history: int -> string)

  predicate Eligible(r: Row) {
    (r.status == NeedsReview || r.status == ReadyToPush) && !r.manual
    && (r.direction == "INCOMING" || r.direction == "OUTGOING")
  }

  function OwnStored(r: Row): StoredSide { Own(r.direction, r.src, r.dst) }

  function OtherStored(r: Row): StoredSide { Other(r.direction, r.src, r.dst) }

  function WithSides(r: Row, own: StoredSide, other: StoredSide): Row {
    if IsIncoming(r.direction) then r.(src := other, dst := own) else r.(src := own, dst := other)
  }

  // Keep the side at the level it is stored at.
  function SetSide(s: StoredSide, id: int, name: string): StoredSide {
    var stored := if id == 0 then None else Some(id);
    if Confirmed(s) then s.(confId := stored, confName := name) else s.(propId := stored, propName := name)
  }

  const NOBODY: StoredSide := StoredSide(None, "", None, "")

  // Firefly's word for an account without a name.
  const PLACEHOLDER := "(no name)"

  function AccountName(w: World, id: int): string {
    var mirrored := match Find(w.mirror, id) case Some(a) => a.name case None => "";
    var name := Trim(if mirrored != "" then mirrored else w.history(id));
    if name == PLACEHOLDER then "" else name
  }

  function SideName(w: World, s: Side): string {
    if s.id != 0 then AccountName(w, s.id) else s.name
  }

  // One of the user's open assets, by id, by a same-named twin, or by name. An id the mirror
  // has never seen is not judged.
  predicate IsOwnSide(w: World, s: Side) {
    if s.id != 0 then
      match Find(w.mirror, s.id)
      case None => true
      case Some(a) => IsOpenAsset(a) || AssetByName(w.mirror, a.name) != 0
    else AssetByName(w.mirror, s.name) != 0
  }

  // This very asset: its id, a same-named twin, or its name.
  predicate SideIs(w: World, s: Side, asset: Account) {
    (s.id != 0 && s.id == asset.id)
    || (SideName(w, s) != "" && SameLetters(Trim(SideName(w, s)), Trim(asset.name)))
  }

  function AccountOfKind(m: Mirror, kind: string, name: string): (id: int)
    ensures id != 0 ==> exists a | a in m :: a.id == id && a.kind == kind && a.active && SameLetters(a.name, name)
  {
    if m == [] then 0
    else if m[0].kind == kind && m[0].active && SameLetters(m[0].name, name) then m[0].id
    else AccountOfKind(m[1..], kind, name)
  }

  function TypeName(direction: string): string {
    if direction == "INCOMING" then "deposit" else "withdrawal"
  }

  function Held(status: Status): Status {
    if status == ReadyToPush then NeedsReview else status
  }

  // What one row becomes, and what was changed. fold: the asset fold has the row on.
  function RepairRow(w: World, fold: Option<Account>, r: Row): (Row, Option<Change>) {
    if !Eligible(r) || fold.None? then (r, None) else
    var asset := fold.value;
    var own, other := OwnStored(r), OtherStored(r);
    var mine, theirs := PushSide(own), PushSide(other);
    var filled := SetSide(own, asset.id, asset.name);
    if mine.Empty() && SideIs(w, theirs, asset) then
      (WithSides(r, filled, NOBODY).(status := Held(r.status)), Some(SwappedOver))
    else if mine.Empty() then
      (WithSides(r, filled, other), Some(Filled))
    else if !IsOwnSide(w, mine) && SideIs(w, theirs, asset) then
      var who := SideName(w, mine);
      if who == "" then (r, None) else
      var whoId := AccountOfKind(w.mirror, if IsIncoming(r.direction) then "revenue" else "expense", who);
      var want := TypeName(r.direction);
      (WithSides(r, filled, SetSide(other, whoId, who))
         .(propType := if r.propType != "" && r.propType != want then want else r.propType,
           status := Held(r.status)),
       Some(SwappedOver))
    else (r, None)
  }

  // ---- the pass over the table ------------------------------------------------------------

  ghost predicate IsSelection(rows: map<Uuid, Row>, order: seq<Uuid>) {
    && (forall i, j | 0 <= i < j < |order| :: order[i] != order[j])
    && (forall u :: u in order <==> u in rows && Eligible(rows[u]))
  }

  function FoldOf(folds: map<Uuid, Account>, u: Uuid): Option<Account> {
    if u in folds then Some(folds[u]) else None
  }

  lemma UnreportedIsUnchanged(w: World, fold: Option<Account>, r: Row)
    ensures RepairRow(w, fold, r).1.None? ==> RepairRow(w, fold, r).0 == r
  {
  }

  lemma UnselectedIsUnchanged(w: World, fold: Option<Account>, r: Row)
    requires !Eligible(r)
    ensures RepairRow(w, fold, r) == (r, None)
  {
  }

  // The whole table after a run, and what the run reports.
  function Repaired(w: World, folds: map<Uuid, Account>, rows: map<Uuid, Row>): map<Uuid, Row> {
    map u | u in rows :: RepairRow(w, FoldOf(folds, u), rows[u]).0
  }

  type RowRepair = (Uuid, Row) -> (Row, Option<Change>)

  function RepairOf(w: World, folds: map<Uuid, Account>): RowRepair {
    (u, r) => RepairRow(w, FoldOf(folds, u), r)
  }

  // What a run reports: its changes, in the order of the selection.
  function Reports(repair: RowRepair, rows: map<Uuid, Row>, order: seq<Uuid>): seq<(Uuid, Change)>
    requires forall i | 0 <= i < |order| :: order[i] in rows
  {
    if order == [] then [] else
    var u := order[|order| - 1];
    var earlier := Reports(repair, rows, order[..|order| - 1]);
    match repair(u, rows[u]).1
    case None => earlier
    case Some(change) => earlier + [(u, change)]
  }

  // How many of the reported changes are of one kind.
  function CountOf(changes: seq<(Uuid, Change)>, kind: Change): nat {
    if changes == [] then 0
    else CountOf(changes[..|changes| - 1], kind) + if changes[|changes| - 1].1 == kind then 1 else 0
  }

  lemma CountAfter(changes: seq<(Uuid, Change)>, u: Uuid, change: Change, kind: Change)
    ensures CountOf(changes + [(u, change)], kind) == CountOf(changes, kind) + if change == kind then 1 else 0
  {
    assert (changes + [(u, change)])[..|changes|] == changes;
  }

  lemma {:induction false} CountsSplit(changes: seq<(Uuid, Change)>)
    ensures CountOf(changes, Filled) + CountOf(changes, SwappedOver) == |changes|
    ensures forall kind :: CountOf(changes, kind) == 0 <==> forall i | 0 <= i < |changes| :: changes[i].1 != kind
  {
    if changes != [] {
      CountsSplit(changes[..|changes| - 1]);
      forall kind ensures CountOf(changes, kind) == 0 <==> forall i | 0 <= i < |changes| :: changes[i].1 != kind {
        assert forall i | 0 <= i < |changes| - 1 :: changes[..|changes| - 1][i] == changes[i];
      }
    }
  }

  // The first i rows of the selection are repaired, unless it is a dry run, and no other.
  ghost predicate PartWay(repair: RowRepair, before: map<Uuid, Row>, rows: map<Uuid, Row>, order: seq<Uuid>, i: nat, dryRun: bool) {
    && i <= |order| && rows.Keys == before.Keys && (forall j | 0 <= j < |order| :: order[j] in before)
    && (forall j | i <= j < |order| :: rows[order[j]] == before[order[j]])
    && (forall j | 0 <= j < i :: rows[order[j]] == if dryRun then before[order[j]] else repair(order[j], before[order[j]]).0)
    && forall u | u in before && u !in order :: rows[u] == before[u]
  }

  lemma PartWayStep(repair: RowRepair, before: map<Uuid, Row>, rows: map<Uuid, Row>, order: seq<Uuid>, i: nat, dryRun: bool)
    requires PartWay(repair, before, rows, order, i, dryRun) && i < |order|
    requires forall i, j | 0 <= i < j < |order| :: order[i] != order[j]
    requires forall u, r :: repair(u, r).1.None? ==> repair(u, r).0 == r
    ensures rows[order[i]] == before[order[i]]
    ensures var (row, change) := repair(order[i], rows[order[i]]);
      PartWay(repair, before, if change.Some? && !dryRun then rows[order[i] := row] else rows, order, i + 1, dryRun)
  {
    assert forall j | 0 <= j < |order| && j != i :: order[j] != order[i];
    assert order[i] in order;
  }

  class Table {
    var rows: map<Uuid, Row>

    constructor (rows: map<Uuid, Row>)
      ensures this.rows == rows
    {
      this.rows := rows;
    }

    // RepairOwnAccounts: order is the selection's, folds the account each row is on.
    method RepairOwnAccounts(w: World, folds: map<Uuid, Account>, order: seq<Uuid>, dryRun: bool)
      returns (changes: seq<(Uuid, Change)>, filled: nat, swapped: nat)
      requires IsSelection(rows, order)
      modifies this
      ensures rows == if dryRun then old(rows) else Repaired(w, folds, old(rows))
      ensures changes == Reports(RepairOf(w, folds), old(rows), order)
      ensures filled == CountOf(changes, Filled) && swapped == CountOf(changes, SwappedOver)
    {
      var repair := RepairOf(w, folds);
      forall u, r ensures repair(u, r).1.None? ==> repair(u, r).0 == r {
        UnreportedIsUnchanged(w, FoldOf(folds, u), r);
      }
      forall u | u in rows && u !in order ensures repair(u, rows[u]) == (rows[u], None) {
        UnselectedIsUnchanged(w, FoldOf(folds, u), rows[u]);
      }
      changes, filled, swapped := RepairEach(repair, order, dryRun);
    }

    // The loop over the selected rows, for any way of repairing one.
    method RepairEach(repair: RowRepair, order: seq<Uuid>, dryRun: bool)
      returns (changes: seq<(Uuid, Change)>, filled: nat, swapped: nat)
      requires forall i | 0 <= i < |order| :: order[i] in rows
      requires forall i, j | 0 <= i < j < |order| :: order[i] != order[j]
      requires forall u, r :: repair(u, r).1.None? ==> repair(u, r).0 == r
      requires forall u | u in rows && u !in order :: repair(u, rows[u]) == (rows[u], None)
      modifies this
      ensures rows == if dryRun then old(rows) else map u | u in old(rows) :: repair(u, old(rows)[u]).0
      ensures changes == Reports(repair, old(rows), order)
      ensures filled == CountOf(changes, Filled) && swapped == CountOf(changes, SwappedOver)
    {
      changes, filled, swapped := [], 0, 0;
      ghost var before := rows;
      for i := 0 to |order|
        invariant PartWay(repair, before, rows, order, i, dryRun)
        invariant changes == Reports(repair, before, order[..i])
        invariant filled == CountOf(changes, Filled) && swapped == CountOf(changes, SwappedOver)
      {
        var u := order[i];
        var (row, change) := repair(u, rows[u]);
        PartWayStep(repair, before, rows, order, i, dryRun);
        assert order[..i + 1][..i] == order[..i];
        if change.Some? {
          CountAfter(changes, u, change.value, Filled);
          CountAfter(changes, u, change.value, SwappedOver);
          changes := changes + [(u, change.value)];
          filled := filled + if change.value == Filled then 1 else 0;
          swapped := swapped + if change.value == Filled then 0 else 1;
          rows := if dryRun then rows else rows[u := row];
        }
      }
      assert order[..|order|] == order;
    }
  }

  // ---- what the repair promises -------------------------------------------------------------

  // fold's account is matched from the mirror's open assets.
  ghost predicate Matched(w: World, fold: Option<Account>) {
    ValidMirror(w.mirror) && (fold.Some? ==> fold.value in w.mirror && IsOpenAsset(fold.value))
  }

  lemma OwnSideIsSet(s: StoredSide, id: int, name: string)
    requires id != 0
    ensures PushSide(SetSide(s, id, name)) == Side(id, "")
  {
  }

  // The own side of a repaired row is fold's asset.
  lemma RepairedOwnSide(w: World, fold: Option<Account>, r: Row)
    requires Matched(w, fold) && RepairRow(w, fold, r).1.Some?
    ensures var r' := RepairRow(w, fold, r).0;
      && Eligible(r') && r'.direction == r.direction && r'.confType == r.confType
      && PushSide(OwnStored(r')) == Side(fold.value.id, "")
  {
    OwnSideIsSet(OwnStored(r), fold.value.id, fold.value.name);
  }

  // ---- when a row is repaired, and how ----------------------------------------------------------

  // One of the user's own: an open asset, or called like one, or an id the mirror has never seen.
  lemma OwnSideMeans(w: World, s: Side)
    requires ValidMirror(w.mirror)
    ensures IsOwnSide(w, s) <==>
      || (s.id != 0 && forall a | a in w.mirror :: a.id != s.id)
      || (s.id != 0 && exists a | a in w.mirror :: a.id == s.id && a.kind == "asset" && a.active)
      || (exists b | b in w.mirror ::
            b.kind == "asset" && b.active
            && if s.id == 0 then Trim(s.name) != "" && Lower(b.name) == Lower(Trim(s.name))
               else exists a | a in w.mirror :: a.id == s.id && Trim(a.name) != "" && Lower(b.name) == Lower(Trim(a.name)))
  {
    if s.id == 0 {
      CalledLikeAnAsset(w.mirror, s.name);
    } else {
      forall a | a in w.mirror && a.id == s.id ensures Find(w.mirror, s.id) == Some(a) {
        FindIsUnique(w.mirror, a);
      }
      if Find(w.mirror, s.id).Some? {
        CalledLikeAnAsset(w.mirror, Find(w.mirror, s.id).value.name);
      }
    }
  }

  lemma CalledLikeAnAsset(m: Mirror, name: string)
    requires ValidMirror(m)
    ensures AssetByName(m, name) != 0 <==>
      Trim(name) != "" && exists b | b in m :: b.kind == "asset" && b.active && Lower(b.name) == Lower(Trim(name))
  {
    if b :| b in m && IsOpenAsset(b) && Lower(b.name) == Lower(Trim(name)) {
      NamedAssetIsFirst(m, Trim(name), b);
    }
  }

  // The name a side goes by: its own, or its account's in the mirror, else in history, trimmed; and
  // Firefly's placeholder is none.
  lemma NameMeans(w: World, s: Side, mirrored: string)
    requires ValidMirror(w.mirror)
    requires mirrored != "" ==> exists a | a in w.mirror :: a.id == s.id && a.name == mirrored
    requires mirrored == "" ==> forall a | a in w.mirror && a.id == s.id :: a.name == ""
    ensures s.id == 0 ==> SideName(w, s) == s.name
    ensures s.id != 0 ==>
      var known := if mirrored != "" then mirrored else w.history(s.id);
      SideName(w, s) == if Trim(known) == "(no name)" then "" else Trim(known)
  {
    if mirrored != "" {
      var a :| a in w.mirror && a.id == s.id && a.name == mirrored;
      FindIsUnique(w.mirror, a);
    }
  }

  // An active account of this kind and name, in any case, is found by its id, the lowest of them.
  lemma {:induction false} KindIsFirst(m: Mirror, kind: string, name: string)
    requires ValidMirror(m)
    ensures AccountOfKind(m, kind, name) == 0 <==> forall a | a in m :: !(a.kind == kind && a.active && Lower(a.name) == Lower(name))
    ensures forall a | a in m && a.kind == kind && a.active && Lower(a.name) == Lower(name) :: AccountOfKind(m, kind, name) <= a.id
  {
    if m != [] {
      assert forall a | a in m :: a == m[0] || a in m[1..];
      assert forall i | 1 <= i < |m| :: m[0].id < m[i].id;
      KindIsFirst(m[1..], kind, name);
    }
  }

  // A row is repaired exactly when it waits, was not entered by hand, has a direction and a known
  // asset of fold's, and either has nobody at its own side, or somebody with a name who is not the
  // user's while fold's asset is at the other.
  lemma RepairedExactlyWhen(w: World, fold: Option<Account>, r: Row)
    ensures var mine, theirs := PushSide(OwnStored(r)), PushSide(OtherStored(r));
      var waits := (r.status == NeedsReview || r.status == ReadyToPush) && !r.manual
        && (r.direction == "INCOMING" || r.direction == "OUTGOING") && fold.Some?;
      var vacant := mine.id == 0 && Trim(mine.name) == "";
      var theirsIsIt := fold.Some?
        && ((theirs.id != 0 && theirs.id == fold.value.id)
            || (SideName(w, theirs) != "" && Lower(Trim(SideName(w, theirs))) == Lower(Trim(fold.value.name))));
      && (RepairRow(w, fold, r).1 == Some(Filled) <==> waits && vacant && !theirsIsIt)
      && (RepairRow(w, fold, r).1 == Some(SwappedOver) <==>
            waits && theirsIsIt && (vacant || (!IsOwnSide(w, mine) && SideName(w, mine) != "")))
      && (RepairRow(w, fold, r).1.None? ==> RepairRow(w, fold, r).0 == r)
  {
  }

  // Where a side is written: over the person's words when there are any, else over the proposal.
  predicate WrittenAs(s: StoredSide, s': StoredSide, id: Option<int>, name: string) {
    if s.confId.Some? || Trim(s.confName) != "" then
      s' == StoredSide(id, name, s.propId, s.propName)
    else s' == StoredSide(s.confId, s.confName, id, name)
  }

  // Its own side is then fold's asset. The other is kept by a filling; emptied by a swap from nobody;
  // and by another swap taken by the person displaced, under the first account of the right kind and
  // name, or by name. Nothing else changes but that a swap holds the row back, and moves a proposed
  // type to the direction's own.
  lemma RepairedIsSo(w: World, fold: Option<Account>, r: Row)
    requires Matched(w, fold) && RepairRow(w, fold, r).1.Some?
    ensures var (r', change) := RepairRow(w, fold, r);
      var incoming := r.direction == "INCOMING";
      var own, other := if incoming then r.dst else r.src, if incoming then r.src else r.dst;
      var own', other' := if incoming then r'.dst else r'.src, if incoming then r'.src else r'.dst;
      var mine := PushSide(own);
      && r'.direction == r.direction && r'.manual == r.manual && r'.confType == r.confType
      && WrittenAs(own, own', Some(fold.value.id), fold.value.name)
      && (change == Some(Filled) ==> other' == other && r'.status == r.status && r'.propType == r.propType)
      && (change == Some(SwappedOver) ==> r'.status == NeedsReview)
      && (change == Some(SwappedOver) && mine.id == 0 && Trim(mine.name) == "" ==>
            other' == StoredSide(None, "", None, "") && r'.propType == r.propType)
      && (change == Some(SwappedOver) && !(mine.id == 0 && Trim(mine.name) == "") ==>
            var id := AccountOfKind(w.mirror, if incoming then "revenue" else "expense", SideName(w, mine));
            && WrittenAs(other, other', if id == 0 then None else Some(id), SideName(w, mine))
            && r'.propType == if r.propType == "" then "" else if incoming then "deposit" else "withdrawal")
  {
    DirectionsDiffer();
    assert fold.value.id != 0;
  }

  // A pass repairs each row against the account fold has it on, and one without any not at all.
  lemma PassRepairsEach(w: World, folds: map<Uuid, Account>, rows: map<Uuid, Row>, u: Uuid)
    requires u in rows
    ensures Repaired(w, folds, rows).Keys == rows.Keys
    ensures u in folds ==>
      && Repaired(w, folds, rows)[u] == RepairRow(w, Some(folds[u]), rows[u]).0
      && RepairOf(w, folds)(u, rows[u]) == RepairRow(w, Some(folds[u]), rows[u])
    ensures u !in folds ==> Repaired(w, folds, rows)[u] == rows[u] && RepairOf(w, folds)(u, rows[u]).1.None?
  {
  }

  // What is reported is what changed, row by row in the order of the selection.
  lemma {:induction false} ReportsAreTheChanges(repair: RowRepair, rows: map<Uuid, Row>, order: seq<Uuid>, u: Uuid, change: Change)
    requires forall i | 0 <= i < |order| :: order[i] in rows
    ensures (u, change) in Reports(repair, rows, order) <==> u in order && repair(u, rows[u]).1 == Some(change)
  {
    if order != [] {
      var front, last := order[..|order| - 1], order[|order| - 1];
      assert order == front + [last];
      ReportsAreTheChanges(repair, rows, front, u, change);
    }
  }

  // A second run changes nothing and reports nothing.
  lemma RepairIsIdempotent(w: World, fold: Option<Account>, r: Row)
    requires Matched(w, fold)
    ensures var r' := RepairRow(w, fold, r).0; RepairRow(w, fold, r') == (r', None)
  {
    if RepairRow(w, fold, r).1.Some? {
      RepairedOwnSide(w, fold, r);
      FindIsUnique(w.mirror, fold.value);
    } else {
      assert RepairRow(w, fold, r).0 == r;
    }
  }

  lemma {:induction false} NothingToReport(repair: RowRepair, rows: map<Uuid, Row>, order: seq<Uuid>)
    requires forall i | 0 <= i < |order| :: order[i] in rows && repair(order[i], rows[order[i]]).1.None?
    ensures Reports(repair, rows, order) == []
  {
    if order != [] {
      NothingToReport(repair, rows, order[..|order| - 1]);
    }
  }

  // A second pass over the whole table changes nothing, and its report is empty, whatever order
  // it takes the rows in.
  lemma SecondPassChangesNothing(w: World, folds: map<Uuid, Account>, rows: map<Uuid, Row>, order: seq<Uuid>)
    requires forall u | u in rows :: Matched(w, FoldOf(folds, u))
    requires forall i | 0 <= i < |order| :: order[i] in rows
    ensures var rows' := Repaired(w, folds, rows);
      Repaired(w, folds, rows') == rows' && Reports(RepairOf(w, folds), rows', order) == []
  {
    var rows' := Repaired(w, folds, rows);
    forall u | u in rows ensures RepairRow(w, FoldOf(folds, u), rows'[u]) == (rows'[u], None) {
      RepairIsIdempotent(w, FoldOf(folds, u), rows[u]);
    }
    NothingToReport(RepairOf(w, folds), rows', order);
  }

  // A row whose own side is already an open asset is left as it is, and a swapped row waits.
  lemma RepairRespectsOwners(w: World, fold: Option<Account>, r: Row)
    requires Matched(w, fold)
    ensures IsMine(w.mirror, PushSide(OwnStored(r))) ==> RepairRow(w, fold, r) == (r, None)
    ensures RepairRow(w, fold, r).1 == Some(SwappedOver) ==> RepairRow(w, fold, r).0.status == NeedsReview
  {
  }

  // ---- what a person had confirmed -------------------------------------------------------------

  // What a person said of a side is what it still says.
  predicate SideKept(s: StoredSide, s': StoredSide) {
    Confirmed(s) ==> s'.confId == s.confId && s'.confName == s.confName
  }

  predicate SidesKept(src: StoredSide, dst: StoredSide, src': StoredSide, dst': StoredSide) {
    SideKept(src, src') && SideKept(dst, dst')
  }

  // The person moved across is written as the other side has him already.
  predicate WrittenAlready(w: World, r: Row) {
    var mine, other := PushSide(OwnStored(r)), OtherStored(r);
    var who := SideName(w, mine);
    var id := AccountOfKind(w.mirror, if IsIncoming(r.direction) then "revenue" else "expense", who);
    !mine.Empty() && other.confName == who && other.confId == if id == 0 then None else Some(id)
  }

  predicate Overrides(w: World, fold: Option<Account>, r: Row) {
    var change := RepairRow(w, fold, r).1;
    && change.Some?
    && (Confirmed(OwnStored(r)) || (change == Some(SwappedOver) && Confirmed(OtherStored(r)) && !WrittenAlready(w, r)))
  }

  // A repair rewrites what a person had confirmed of a side exactly when it changes a row whose
  // own side he had confirmed, or swaps one whose other side he had.
  lemma RepairOverridesExactlyWhen(w: World, fold: Option<Account>, r: Row)
    requires Matched(w, fold)
    ensures var r' := RepairRow(w, fold, r).0;
      SidesKept(r.src, r.dst, r'.src, r'.dst) <==> !Overrides(w, fold, r)
  {
    var (r', change) := RepairRow(w, fold, r);
    if change.Some? {
      var own, other := OwnStored(r), OtherStored(r);
      FindIsUnique(w.mirror, fold.value);
      assert Trim("") == "";
      assert OwnStored(r') == SetSide(own, fold.value.id, fold.value.name);
      assert Confirmed(own) ==> own.confId != Some(fold.value.id);
    } else {
      UnreportedIsUnchanged(w, fold, r);
    }
  }

  // ---- when a repaired row is from an account to itself ----------------------------------------

  // The account at the far side goes by the placeholder, which reads as no name at all, and
  // fold's asset is the one found by it.
  predicate HiddenTwin(w: World, theirs: Side, asset: Account) {
    && theirs.id != 0 && Find(w.mirror, theirs.id).Some?
    && !IsOpenAsset(Find(w.mirror, theirs.id).value) && Trim(Find(w.mirror, theirs.id).value.name) == PLACEHOLDER
    && AssetByName(w.mirror, PLACEHOLDER) == asset.id
  }

  // The account in fold's place has no name in the mirror, and history calls it like fold's asset.
  predicate NamedLikeIt(w: World, mine: Side, asset: Account) {
    && mine.id != 0 && Find(w.mirror, mine.id).Some? && Find(w.mirror, mine.id).value.name == ""
    && AssetByName(w.mirror, AccountName(w, mine.id)) == asset.id
  }

  predicate Doubling(w: World, asset: Account, r: Row) {
    var mine, theirs := PushSide(OwnStored(r)), PushSide(OtherStored(r));
    if mine.Empty() then HiddenTwin(w, theirs, asset) else NamedLikeIt(w, mine, asset)
  }

  predicate MayTransfer(confType: string) { ParseKind(confType) in {None, Some(Transfer)} }

  lemma PushSideIsTrim(s: StoredSide)
    ensures Trim(PushSide(s).name) == PushSide(s).name
    ensures PushSide(s).id != 0 ==> PushSide(s).name == ""
  {
    TrimTwice(s.confName);
    TrimTwice(s.propName);
  }

  // A far side that would resolve to fold's asset is recognised as it, but for a hidden twin.
  lemma TwinsAreFound(w: World, asset: Account, s: Side)
    requires ValidMirror(w.mirror) && asset in w.mirror && IsOpenAsset(asset)
    requires Trim(s.name) == s.name && (s.id != 0 ==> s.name == "")
    ensures !SideIs(w, s, asset) ==> (SideAsset(w.mirror, s).0 == asset.id <==> HiddenTwin(w, s, asset))
    ensures HiddenTwin(w, s, asset) ==> !SideIs(w, s, asset)
  {
    FindIsUnique(w.mirror, asset);
    assert Trim("") == "";
    if s.id == 0 {
      if AssetByName(w.mirror, s.name) == asset.id {
        AssetByNameIsOpen(w.mirror, s.name);
        TrimKeepsCase(asset.name, s.name);
      }
    } else if Find(w.mirror, s.id).Some? {
      TwinsById(w, asset, s, Find(w.mirror, s.id).value);
    }
  }

  lemma TwinsById(w: World, asset: Account, s: Side, a: Account)
    requires ValidMirror(w.mirror) && asset in w.mirror && IsOpenAsset(asset) && Find(w.mirror, asset.id) == Some(asset)
    requires s.id != 0 && Find(w.mirror, s.id) == Some(a)
    ensures !SideIs(w, s, asset) ==> (SideAsset(w.mirror, s).0 == asset.id <==> HiddenTwin(w, s, asset))
    ensures HiddenTwin(w, s, asset) ==> !SideIs(w, s, asset)
  {
    AssetByNameIgnoresPadding(w.mirror, a.name);
    if !IsOpenAsset(a) && AssetByName(w.mirror, a.name) == asset.id {
      AssetByNameIsOpen(w.mirror, a.name);
      TrimKeepsCase(asset.name, Trim(a.name));
      TrimTwice(a.name);
      assert Trim("") == "" && a.name != "";
      assert AccountName(w, s.id) == if Trim(a.name) == PLACEHOLDER then "" else Trim(a.name);
    }
  }

  // Whoever is moved across resolves as the name he goes by, and to one of the user's assets
  // only when the mirror had no name for him.
  lemma MovedAcross(w: World, mine: Side, kind: string)
    requires ValidMirror(w.mirror) && kind != "asset"
    requires Trim(mine.name) == mine.name && !mine.Empty() && !IsOwnSide(w, mine) && SideName(w, mine) != ""
    ensures var who := SideName(w, mine);
      var id := AccountOfKind(w.mirror, kind, who);
      var s := if id != 0 then Side(id, "") else Side(0, Trim(who));
      && SideAsset(w.mirror, s) == (AssetByName(w.mirror, who), true) && Trim(who) == who && !s.Empty()
      && (id != 0 ==> AccountKind(w.mirror, id) == kind)
      && (AssetByName(w.mirror, who) != 0 ==> mine.id != 0 && Find(w.mirror, mine.id).value.name == "")
  {
    var who := SideName(w, mine);
    TrimTwice(w.history(mine.id));
    if mine.id != 0 {
      AssetByNameIgnoresPadding(w.mirror, Find(w.mirror, mine.id).value.name);
      TrimTwice(Find(w.mirror, mine.id).value.name);
    }
    var id := AccountOfKind(w.mirror, kind, who);
    if id != 0 {
      var a :| a in w.mirror && a.id == id && a.kind == kind && a.active && SameLetters(a.name, who);
      FindIsUnique(w.mirror, a);
      AssetByNameIgnoresCase(w.mirror, a.name, who);
    }
  }

  function CheckRow(w: World, r: Row): TypeCheck {
    CheckType(w.mirror, r.direction, r.confType, r.propType, PushSide(r.src), PushSide(r.dst))
  }

  lemma DirectionsDiffer()
    ensures IsIncoming("INCOMING") && !IsIncoming("OUTGOING")
  {
    assert Lower("OUTGOING")[0] == 'o' && Lower("INCOMING")[0] == 'i';
  }

  lemma PlainTypes()
    ensures ParseKind("deposit") == Some(Deposit) && ParseKind("withdrawal") == Some(Withdrawal)
    ensures ParseKind("") == None
  {
    LowerKeeps("deposit");
    LowerKeeps("withdrawal");
    LowerKeeps("");
    TrimOfTrimmed("deposit");
    TrimOfTrimmed("withdrawal");
    assert Trim("") == "" && |"deposit"| != |"withdrawal"|;
  }

  // With the own side in order, what can be wrong is told by the other side and the kind.
  lemma OnlyTheOther(m: Mirror, direction: string, kind: Kind, own: Side, other: Side)
    requires own.id != 0 && SideAsset(m, own) == (own.id, true)
    ensures WhatIsWrong(m, direction, kind, own, other) !in {Swapped, OwnNotMine}
    ensures WhatIsWrong(m, direction, kind, own, other) == SameAccount
      <==> kind == Transfer && !other.Empty() && SideAsset(m, other).0 == own.id
  {
  }

  lemma FilledProblem(w: World, fold: Option<Account>, r: Row)
    requires Matched(w, fold) && RepairRow(w, fold, r).1 == Some(Filled)
    ensures var problem := CheckRow(w, RepairRow(w, fold, r).0).problem;
      && problem !in {Swapped, OwnNotMine}
      && (problem == SameAccount <==> MayTransfer(r.confType) && Doubling(w, fold.value, r))
  {
    var r' := RepairRow(w, fold, r).0;
    RepairedOwnSide(w, fold, r);
    DirectionsDiffer();
    FindIsUnique(w.mirror, fold.value);
    var theirs := PushSide(OtherStored(r));
    PushSideIsTrim(OtherStored(r));
    assert PushSide(OtherStored(r')) == theirs;
    TwinsAreFound(w, fold.value, theirs);
    OnlyTheOther(w.mirror, r'.direction, CheckRow(w, r').kind, PushSide(OwnStored(r')), theirs);
  }

  // The other side of a swapped row: nobody, or the person moved across.
  lemma SwappedOtherSide(w: World, fold: Option<Account>, r: Row)
    requires Matched(w, fold) && RepairRow(w, fold, r).1 == Some(SwappedOver)
    ensures var r' := RepairRow(w, fold, r).0;
      var mine, theirs := PushSide(OwnStored(r)), PushSide(OtherStored(r'));
      if mine.Empty() then theirs == Side(0, "")
      else
        && SideAsset(w.mirror, theirs) == (AssetByName(w.mirror, SideName(w, mine)), true) && !theirs.Empty()
        && (theirs.id != 0 ==> AccountKind(w.mirror, theirs.id) == if IsIncoming(r.direction) then "revenue" else "expense")
        && (AssetByName(w.mirror, SideName(w, mine)) == fold.value.id <==> NamedLikeIt(w, mine, fold.value))
        && (r'.propType == "" || r'.propType == TypeName(r.direction))
  {
    var mine := PushSide(OwnStored(r));
    var r' := RepairRow(w, fold, r).0;
    assert Trim("") == "" && PushSide(NOBODY) == Side(0, "");
    if mine.Empty() {
      assert OtherStored(r') == NOBODY;
    } else {
      var kind := if IsIncoming(r.direction) then "revenue" else "expense";
      PushSideIsTrim(OwnStored(r));
      MovedAcross(w, mine, kind);
      var who := SideName(w, mine);
      var id := AccountOfKind(w.mirror, kind, who);
      assert OtherStored(r') == SetSide(OtherStored(r), id, who);
      assert PushSide(OtherStored(r')) == if id != 0 then Side(id, "") else Side(0, Trim(who));
    }
  }

  // With no type chosen and nobody of the wrong kind at the other side, nothing else is wrong.
  lemma NothingElse(m: Mirror, direction: string, confirmed: string, proposed: string, own: Side, other: Side)
    requires own.id != 0 && SideAsset(m, own) == (own.id, true) && ParseKind(confirmed).None?
    requires other.Empty()
      || (SideAsset(m, other).1 && ParseKind(proposed) in {None, Some(DefaultType(direction))}
          && (other.id != 0 ==> AccountKind(m, other.id) == if IsIncoming(direction) then "revenue" else "expense"))
    ensures var kind := ResolvedKind(direction, confirmed, proposed, SideAsset(m, other).0 != 0);
      WhatIsWrong(m, direction, kind, own, other) == NoProblem <==> other.Empty() || SideAsset(m, other).0 != own.id
  {
  }

  lemma SwappedDoubling(w: World, fold: Option<Account>, r: Row)
    requires Matched(w, fold) && RepairRow(w, fold, r).1 == Some(SwappedOver)
    ensures var theirs := PushSide(OtherStored(RepairRow(w, fold, r).0));
      !theirs.Empty() && SideAsset(w.mirror, theirs).0 == fold.value.id <==> Doubling(w, fold.value, r)
  {
    SwappedOtherSide(w, fold, r);
    assert Trim("") == "";
    PushSideIsTrim(OtherStored(r));
    TwinsAreFound(w, fold.value, PushSide(OtherStored(r)));
  }

  // A swapped row with nobody at the other side has nothing wrong; one with somebody moved across
  // has, with no type chosen, only a move to itself.
  lemma SwappedProblem(w: World, fold: Option<Account>, r: Row)
    requires Matched(w, fold) && RepairRow(w, fold, r).1 == Some(SwappedOver)
    ensures var problem := CheckRow(w, RepairRow(w, fold, r).0).problem;
      && problem !in {Swapped, OwnNotMine}
      && (problem == SameAccount <==> MayTransfer(r.confType) && Doubling(w, fold.value, r))
      && (ParseKind(r.confType).None? ==> (problem == NoProblem <==> !Doubling(w, fold.value, r)))
  {
    var r' := RepairRow(w, fold, r).0;
    RepairedOwnSide(w, fold, r);
    SwappedDoubling(w, fold, r);
    DirectionsDiffer();
    FindIsUnique(w.mirror, fold.value);
    OnlyTheOther(w.mirror, r'.direction, CheckRow(w, r').kind, PushSide(OwnStored(r')), PushSide(OtherStored(r')));
    if ParseKind(r.confType).None? {
      SwappedOtherSide(w, fold, r);
      PlainTypes();
      NothingElse(w.mirror, r'.direction, r'.confType, r'.propType, PushSide(OwnStored(r')), PushSide(OtherStored(r')));
    }
  }

  // A repaired row, checked as push checks it, is never the wrong way round nor on an account
  // that isn't the user's. It is from an account to itself exactly when a hidden twin was at the
  // far side, or the person moved across is one the mirror has no name for and history calls
  // like fold's asset; and while no person chose the type of a swapped row, nothing else can be
  // wrong with it.
  lemma RepairedProblemExactly(w: World, fold: Option<Account>, r: Row)
    requires Matched(w, fold) && RepairRow(w, fold, r).1.Some?
    ensures var problem := CheckRow(w, RepairRow(w, fold, r).0).problem;
      && problem !in {Swapped, OwnNotMine}
      && (problem == SameAccount <==> MayTransfer(r.confType) && Doubling(w, fold.value, r))
      && (RepairRow(w, fold, r).1 == Some(SwappedOver) && ParseKind(r.confType).None? ==>
            (problem == NoProblem <==> !Doubling(w, fold.value, r)))
  {
    if RepairRow(w, fold, r).1 == Some(Filled) {
      FilledProblem(w, fold, r);
    } else {
      SwappedProblem(w, fold, r);
    }
  }

  // Every account has a name, and none is called by the placeholder.
  ghost predicate NamesUsable(m: Mirror) {
    forall a | a in m :: !Blank(a.name) && Trim(a.name) != PLACEHOLDER
  }

  // So where every account has a name of its own, the promise holds of every row.
  lemma RepairedRowFits(w: World, fold: Option<Account>, r: Row)
    requires Matched(w, fold) && NamesUsable(w.mirror) && RepairRow(w, fold, r).1.Some?
    ensures CheckRow(w, RepairRow(w, fold, r).0).problem !in {Swapped, OwnNotMine, SameAccount}
    ensures RepairRow(w, fold, r).1 == Some(SwappedOver) && ParseKind(r.confType).None? ==>
      CheckRow(w, RepairRow(w, fold, r).0).problem == NoProblem
  {
    assert Trim("") == "";
    RepairedProblemExactly(w, fold, r);
  }

  predicate Twins(w: World, first: string, second: string) {
    w.mirror == [Account(1, first, "asset", true), Account(2, second, "expense", true)]
  }

  lemma TwinsAreMatched(w: World, first: string, second: string)
    requires Twins(w, first, second)
    ensures Matched(w, Some(w.mirror[0])) && Find(w.mirror, 1) == Some(w.mirror[0]) && Find(w.mirror, 2) == Some(w.mirror[1])
    ensures !Blank(first) && Trim(first) == first ==> AssetByName(w.mirror, first) == 1
    ensures !SameLetters(first, Trim(second)) ==> AssetByName(w.mirror, second) == 0
  {
    assert Find(w.mirror, 2) == Find(w.mirror[1..], 2);
    assert w.mirror[1..] == [Account(2, second, "expense", true)] && w.mirror[1..][1..] == [];
    assert NamedAsset(w.mirror[1..], Trim(second)) == NamedAsset([], Trim(second)) == 0;
  }

  // The two ways it happens. A payee called by the placeholder is not recognised as the twin of
  // an asset called so, and filling the own side makes a move from the asset to itself.
  lemma PlaceholderTwinBreaksIt(r: Row, w: World)
    requires Twins(w, PLACEHOLDER, PLACEHOLDER)
    requires r == Row("OUTGOING", NeedsReview, false, "", "", NOBODY, StoredSide(Some(2), "", None, ""))
    ensures var (r', change) := RepairRow(w, Some(w.mirror[0]), r);
      Matched(w, Some(w.mirror[0])) && change == Some(Filled) && CheckRow(w, r').problem == SameAccount
  {
    assert Trim("") == "" && Trim(PLACEHOLDER) == PLACEHOLDER;
    TwinsAreMatched(w, PLACEHOLDER, PLACEHOLDER);
    DirectionsDiffer();
    PlainTypes();
    RepairedProblemExactly(w, Some(w.mirror[0]), r);
  }

  // And a payee without a name, which history calls like the card, is moved across by that name.
  lemma HistoryTwinBreaksIt(r: Row, w: World)
    requires Twins(w, "Card", "") && w.history(2) == "Card"
    requires r == Row("OUTGOING", NeedsReview, false, "", "",
                      StoredSide(Some(2), "", None, ""), StoredSide(Some(1), "", None, ""))
    ensures var (r', change) := RepairRow(w, Some(w.mirror[0]), r);
      Matched(w, Some(w.mirror[0])) && change == Some(SwappedOver) && CheckRow(w, r').problem == SameAccount
  {
    HistoryNamesIt(w, r);
    PlainTypes();
    RepairedProblemExactly(w, Some(w.mirror[0]), r);
  }

  lemma HistoryNamesIt(w: World, r: Row)
    requires Twins(w, "Card", "") && w.history(2) == "Card"
    requires r == Row("OUTGOING", NeedsReview, false, "", "",
                      StoredSide(Some(2), "", None, ""), StoredSide(Some(1), "", None, ""))
    ensures Matched(w, Some(w.mirror[0])) && Doubling(w, w.mirror[0], r)
    ensures RepairRow(w, Some(w.mirror[0]), r).1 == Some(SwappedOver)
  {
    TrimOfTrimmed("Card");
    assert Trim("") == "" && |Lower("Card")| != |Lower("")|;
    TwinsAreMatched(w, "Card", "");
    DirectionsDiffer();
    assert AccountName(w, 2) == "Card" && PushSide(OwnStored(r)) == Side(2, "") && PushSide(OtherStored(r)) == Side(1, "");
  }
}

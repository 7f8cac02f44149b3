// Which of Firefly's three kinds a row is, and the rules tying each kind to the row's two
// sides (txntype.go), with the sides as push reads and sends them (push.go).
module TxnType {
  import opened Wrappers
  import opened Text

  // ---- the accounts mirror ----------------------------------------------------------------

  datatype Account = Account(id: int, name: string, kind: string, active: bool)

  // firefly_accounts in order of its key.
  type Mirror = seq<Account>

  ghost predicate ValidMirror(m: Mirror) {
    && (forall i | 0 <= i < |m| :: m[i].id > 0)
    && (forall i, j | 0 <= i < j < |m| :: m[i].id < m[j].id)
  }

  function Find(m: Mirror, id: int): (r: Option<Account>)
    ensures r.Some? ==> r.value in m && r.value.id == id
    ensures r.None? ==> forall a | a in m :: a.id != id
  {
    if m == [] then None
    else if m[0].id == id then Some(m[0])
    else Find(m[1..], id)
  }

  lemma {:induction false} FindIsUnique(m: Mirror, a: Account)
    requires ValidMirror(m) && a in m
    ensures Find(m, a.id) == Some(a)
  {
    if m[0] != a {
      assert a in m[1..];
      FindIsUnique(m[1..], a);
    }
  }

  predicate IsOpenAsset(a: Account) { a.kind == "asset" && a.active }

  // The first open asset called this, any case; the name has been trimmed already.
  function NamedAsset(m: Mirror, name: string): (id: int)
    ensures id != 0 ==> exists a | a in m :: a.id == id && IsOpenAsset(a) && SameLetters(a.name, name)
  {
    if m == [] then 0
    else if IsOpenAsset(m[0]) && SameLetters(m[0].name, name) then m[0].id
    else NamedAsset(m[1..], name)
  }

  function AssetByName(m: Mirror, name: string): int {
    if Blank(name) then 0 else NamedAsset(m, Trim(name))
  }

  // No answer means no such asset, and the answer is the one with the lowest id.
  lemma {:induction false} NamedAssetIsFirst(m: Mirror, name: string, a: Account)
    requires ValidMirror(m) && a in m && IsOpenAsset(a) && SameLetters(a.name, name)
    ensures 0 < NamedAsset(m, name) <= a.id
  {
    if m[0] != a && !(IsOpenAsset(m[0]) && SameLetters(m[0].name, name)) {
      assert a in m[1..];
      NamedAssetIsFirst(m[1..], name, a);
    }
  }

  lemma {:induction false} NamedAssetIgnoresCase(m: Mirror, name: string, other: string)
    requires SameLetters(name, other)
    ensures NamedAsset(m, name) == NamedAsset(m, other)
  {
    if m != [] {
      NamedAssetIgnoresCase(m[1..], name, other);
    }
  }

  lemma AssetByNameIgnoresCase(m: Mirror, name: string, other: string)
    requires SameLetters(name, other)
    ensures AssetByName(m, name) == AssetByName(m, other)
  {
    TrimKeepsCase(name, other);
    NamedAssetIgnoresCase(m, Trim(name), Trim(other));
    assert |Lower(Trim(name))| == |Trim(name)| && |Lower(Trim(other))| == |Trim(other)|;
  }

  lemma AssetByNameIgnoresPadding(m: Mirror, name: string)
    ensures AssetByName(m, Trim(name)) == AssetByName(m, name)
  {
    TrimTwice(name);
  }

  lemma AssetByNameIsOpen(m: Mirror, name: string)
    requires ValidMirror(m) && AssetByName(m, name) != 0
    ensures Find(m, AssetByName(m, name)).Some? && IsOpenAsset(Find(m, AssetByName(m, name)).value)
    ensures SameLetters(Find(m, AssetByName(m, name)).value.name, Trim(name))
  {
    var id := AssetByName(m, name);
    var a :| a in m && a.id == id && IsOpenAsset(a) && SameLetters(a.name, Trim(name));
    FindIsUnique(m, a);
  }

  // ---- types ----------------------------------------------------------------------------------

  datatype Kind = Withdrawal | Deposit | Transfer

  // A stored type as text, read as CheckType reads it.
  function ParseKind(s: string): Option<Kind> {
    var t := Lower(Trim(s));
    if t == "withdrawal" then Some(Withdrawal)
    else if t == "deposit" then Some(Deposit)
    else if t == "transfer" then Some(Transfer)
    else None
  }

  predicate IsIncoming(direction: string) { SameLetters(direction, "INCOMING") }

  function DefaultType(direction: string): Kind {
    if IsIncoming(direction) then Deposit else Withdrawal
  }

  predicate TypeAllowed(direction: string, k: Kind) {
    k == DefaultType(direction) || k == Transfer
  }

  datatype Problem =
    | NoProblem | Direction | OtherIsMine | OtherNotMine | SameAccount | OtherKind | OwnNotMine | Swapped

  datatype Side = Side(id: int, name: string) {
    predicate Empty() { id == 0 && Blank(name) }
  }

  datatype TypeCheck = TypeCheck(kind: Kind, explicit: bool, problem: Problem, ownAsset: int, otherAsset: int)

  // A side as one of the user's open assets, and whether the mirror could tell.
  function SideAsset(m: Mirror, s: Side): (int, bool) {
    if s.id != 0 then
      match Find(m, s.id)
      case Some(a) => if IsOpenAsset(a) then (s.id, true) else (AssetByName(m, a.name), true)
      case None => (AssetByName(m, s.name), AssetByName(m, s.name) != 0)
    else (AssetByName(m, s.name), true)
  }

  function AccountKind(m: Mirror, id: int): string {
    match Find(m, id)
    case Some(a) => a.kind
    case None => ""
  }

  // Of a row's two sides, the user's own and the other party's.
  function Own<T>(direction: string, src: T, dst: T): T { if IsIncoming(direction) then dst else src }

  function Other<T>(direction: string, src: T, dst: T): T { if IsIncoming(direction) then src else dst }

  function ResolvedKind(direction: string, confirmed: string, proposed: string, bothMine: bool): Kind {
    match ParseKind(confirmed)
    case Some(k) => k
    case None =>
      if bothMine then Transfer
      else match ParseKind(proposed)
        case Some(k) => if TypeAllowed(direction, k) then k else DefaultType(direction)
        case None => DefaultType(direction)
  }

  // An account Firefly pays from where it should be one paid to, or the other way round.
  predicate OfOtherKind(m: Mirror, kind: Kind, other: Side) {
    && kind != Transfer && other.id != 0
    && ((kind == Withdrawal && AccountKind(m, other.id) == "revenue") || (kind == Deposit && AccountKind(m, other.id) == "expense"))
  }

  function WhatIsWrong(m: Mirror, direction: string, kind: Kind, own: Side, other: Side): Problem {
    var (ownAsset, ownKnown) := SideAsset(m, own);
    var (otherAsset, otherKnown) := SideAsset(m, other);
    if !TypeAllowed(direction, kind) then Direction
    else if kind != Transfer && !own.Empty() && ownKnown && ownAsset == 0 && otherAsset != 0 then Swapped
    else if own.id != 0 && ownKnown && ownAsset == 0 then OwnNotMine
    else if other.Empty() then NoProblem
    else if kind == Transfer && otherKnown && otherAsset == 0 then OtherNotMine
    else if kind == Transfer && otherAsset != 0 && otherAsset == ownAsset then SameAccount
    else if kind != Transfer && otherAsset != 0 then OtherIsMine
    else if OfOtherKind(m, kind, other) then OtherKind
    else NoProblem
  }

  function CheckType(m: Mirror, direction: string, confirmed: string, proposed: string, src: Side, dst: Side): TypeCheck {
    var own, other := Own(direction, src, dst), Other(direction, src, dst);
    var ownAsset, otherAsset := SideAsset(m, own).0, SideAsset(m, other).0;
    var kind := ResolvedKind(direction, confirmed, proposed, ownAsset != 0 && otherAsset != 0);
    TypeCheck(kind, ParseKind(confirmed).Some?, WhatIsWrong(m, direction, kind, own, other), ownAsset, otherAsset)
  }

  // ---- sides as stored, and as push sends them -----------------------------------------------

  // A column that is NULL or empty is the same to every reader here: "" for a name.
  datatype StoredSide = StoredSide(confId: Option<int>, confName: string, propId: Option<int>, propName: string)

  // A person has said who is at this side.
  predicate Confirmed(s: StoredSide) { s.confId.Some? || !Blank(s.confName) }

  // pushableRow.sides: a confirmed side overrides the proposal as a unit.
  function PushSide(s: StoredSide): Side {
    if s.confId.Some? then Side(s.confId.value, "")
    else if !Blank(s.confName) then Side(0, Trim(s.confName))
    else if s.propId.Some? then Side(s.propId.value, "")
    else Side(0, Trim(s.propName))
  }

  datatype LineSides = LineSides(kind: Kind, source: Side, destination: Side)

  // The type and sides buildCreateRequest puts on the wire: the own side, and a transfer's
  // other side, go by their asset.
  function BuiltSides(m: Mirror, direction: string, confirmed: string, proposed: string, src: Side, dst: Side): LineSides {
    var tc := CheckType(m, direction, confirmed, proposed, src, dst);
    var own := if tc.ownAsset != 0 then Side(tc.ownAsset, "") else Own(direction, src, dst);
    var other := if tc.kind == Transfer && tc.otherAsset != 0 then Side(tc.otherAsset, "") else Other(direction, src, dst);
    if IsIncoming(direction) then LineSides(tc.kind, other, own) else LineSides(tc.kind, own, other)
  }

  // ---- the ledger's own rules ------------------------------------------------------------------

  predicate IsMine(m: Mirror, s: Side) {
    s.id != 0 && Find(m, s.id).Some? && IsOpenAsset(Find(m, s.id).value)
  }

  // Not an open asset, nor called like one, nor an account of the kind this move refuses; or
  // somebody new, by a name that is no open asset's.
  predicate IsTheirs(m: Mirror, s: Side, refused: string) {
    if s.id != 0 then
      && Find(m, s.id).Some? && !IsOpenAsset(Find(m, s.id).value)
      && AssetByName(m, Find(m, s.id).value.name) == 0 && Find(m, s.id).value.kind != refused
    else !Blank(s.name) && AssetByName(m, s.name) == 0
  }

  predicate LedgerAccepts(m: Mirror, line: LineSides) {
    match line.kind
    case Transfer => IsMine(m, line.source) && IsMine(m, line.destination) && line.source.id != line.destination.id
    case Withdrawal => IsMine(m, line.source) && IsTheirs(m, line.destination, "revenue")
    case Deposit => IsMine(m, line.destination) && IsTheirs(m, line.source, "expense")
  }

  predicate Known(m: Mirror, s: Side) { s.id != 0 && Find(m, s.id).Some? }

  predicate Fits(m: Mirror, direction: string, confirmed: string, proposed: string, src: Side, dst: Side) {
    CheckType(m, direction, confirmed, proposed, src, dst).problem == NoProblem
  }

  predicate Accepted(m: Mirror, direction: string, confirmed: string, proposed: string, src: Side, dst: Side) {
    && TypeAllowed(direction, CheckType(m, direction, confirmed, proposed, src, dst).kind)
    && LedgerAccepts(m, BuiltSides(m, direction, confirmed, proposed, src, dst))
  }

  // Where the mirror knows the own side, and the other side too or it goes by a name, push's
  // check passes exactly when the bank's direction allows the type and the line that would be
  // sent obeys the ledger's rules.
  lemma FitsExactlyWhenLedgerAccepts(m: Mirror, direction: string, confirmed: string, proposed: string, src: Side, dst: Side)
    requires ValidMirror(m) && Known(m, Own(direction, src, dst))
    requires var other := Other(direction, src, dst); Known(m, other) || (other.id == 0 && !Blank(other.name))
    ensures Fits(m, direction, confirmed, proposed, src, dst) <==> Accepted(m, direction, confirmed, proposed, src, dst)
  {
    if Known(m, Other(direction, src, dst)) {
      FitsByIds(m, direction, confirmed, proposed, src, dst);
    } else {
      FitsByName(m, direction, confirmed, proposed, src, dst);
    }
  }

  lemma FitsByIds(m: Mirror, direction: string, confirmed: string, proposed: string, src: Side, dst: Side)
    requires ValidMirror(m) && Known(m, src) && Known(m, dst)
    ensures Fits(m, direction, confirmed, proposed, src, dst) <==> Accepted(m, direction, confirmed, proposed, src, dst)
  {
    SideAssetIsOpen(m, src);
    SideAssetIsOpen(m, dst);
  }

  lemma FitsByName(m: Mirror, direction: string, confirmed: string, proposed: string, src: Side, dst: Side)
    requires ValidMirror(m) && Known(m, Own(direction, src, dst))
    requires var other := Other(direction, src, dst); other.id == 0 && !Blank(other.name)
    ensures Fits(m, direction, confirmed, proposed, src, dst) <==> Accepted(m, direction, confirmed, proposed, src, dst)
  {
    SideAssetIsOpen(m, src);
    SideAssetIsOpen(m, dst);
  }

  lemma SideAssetIsOpen(m: Mirror, s: Side)
    requires ValidMirror(m)
    ensures SideAsset(m, s).0 != 0 ==> IsMine(m, Side(SideAsset(m, s).0, ""))
  {
    if SideAsset(m, s).0 != 0 {
      if s.id == 0 || Find(m, s.id).None? {
        AssetByNameIsOpen(m, s.name);
      } else if !IsOpenAsset(Find(m, s.id).value) {
        AssetByNameIsOpen(m, Find(m, s.id).value.name);
      }
    }
  }

  // A person's type is sent as it is, and a row nobody decided goes as a transfer exactly when
  // both sides are the user's own or the classifier said so.
  lemma ChosenTypeIsFinal(m: Mirror, direction: string, confirmed: string, proposed: string, src: Side, dst: Side)
    ensures var line := BuiltSides(m, direction, confirmed, proposed, src, dst);
      if ParseKind(confirmed).Some? then line.kind == ParseKind(confirmed).value
      else line.kind == Transfer
           <==> ((SideAsset(m, src).0 != 0 && SideAsset(m, dst).0 != 0) || ParseKind(proposed) == Some(Transfer))
  {
  }

  // The asset a side stands for is itself when it is one that is open, else the one called like its
  // account, or like the side where the mirror has no such account; and the mirror cannot tell only of
  // an id it has not seen, unless by its name.
  lemma SideAssetMeans(m: Mirror, s: Side)
    requires ValidMirror(m)
    ensures forall a | a in m && a.id == s.id && a.kind == "asset" && a.active :: SideAsset(m, s) == (a.id, true)
    ensures forall a | a in m && a.id == s.id && !(a.kind == "asset" && a.active) :: SideAsset(m, s) == (AssetByName(m, a.name), true)
    ensures (forall a | a in m :: a.id != s.id) ==>
      SideAsset(m, s) == (AssetByName(m, s.name), s.id == 0 || AssetByName(m, s.name) != 0)
  {
    forall a | a in m && a.id == s.id ensures Find(m, s.id) == Some(a) && s.id != 0 {
      FindIsUnique(m, a);
    }
  }

  // What is wrong, each code exactly when: a type against the direction before all else; somebody else
  // at the own side, with one of the user's in his place or not; and only then the other side.
  lemma ProblemsMean(m: Mirror, direction: string, kind: Kind, own: Side, other: Side,
                     mine: int, ownKnown: bool, theirs: int, otherKnown: bool)
    requires SideAsset(m, own) == (mine, ownKnown) && SideAsset(m, other) == (theirs, otherKnown)
    ensures var problem := WhatIsWrong(m, direction, kind, own, other);
      var against := if Lower(direction) == Lower("INCOMING") then kind == Withdrawal else kind == Deposit;
      var stranger := ownKnown && mine == 0 && (own.id != 0 || Trim(own.name) != "");
      var swapped := stranger && kind != Transfer && theirs != 0;
      var settled := !against && !swapped && !(stranger && own.id != 0);
      && (problem == Direction <==> against)
      && (problem == Swapped <==> !against && swapped)
      && (problem == OwnNotMine <==> !against && !swapped && stranger && own.id != 0)
      && (problem == SameAccount <==> settled && kind == Transfer && theirs != 0 && theirs == mine)
      && (problem == OtherIsMine <==> settled && kind != Transfer && theirs != 0)
      && (problem == OtherNotMine <==>
            settled && kind == Transfer && theirs == 0 && otherKnown && (other.id != 0 || Trim(other.name) != ""))
      && (problem == OtherKind <==>
            && settled && theirs == 0 && other.id != 0
            && ((kind == Withdrawal && AccountKind(m, other.id) == "revenue")
                || (kind == Deposit && AccountKind(m, other.id) == "expense")))
  {
    if theirs != 0 {
      assert !other.Empty();
    }
  }

  // What is sent of the two sides: the own side as its asset where it has one, the other side as its
  // asset in a transfer alone, and else each as it is stored; money in goes to the own side.
  lemma SidesAreSent(m: Mirror, direction: string, confirmed: string, proposed: string, src: Side, dst: Side)
    ensures var line := BuiltSides(m, direction, confirmed, proposed, src, dst);
      var incoming := Lower(direction) == Lower("INCOMING");
      var own, other := if incoming then dst else src, if incoming then src else dst;
      var mine, theirs := SideAsset(m, own).0, SideAsset(m, other).0;
      var ownSent, otherSent := if incoming then line.destination else line.source, if incoming then line.source else line.destination;
      && line.kind == ResolvedKind(direction, confirmed, proposed, mine != 0 && theirs != 0)
      && (mine != 0 ==> ownSent == Side(mine, "")) && (mine == 0 ==> ownSent == own)
      && (line.kind == Transfer && theirs != 0 ==> otherSent == Side(theirs, ""))
      && (line.kind != Transfer || theirs == 0 ==> otherSent == other)
  {
  }

  // Undecided and not between two of the user's own, a row goes as the classifier said if its
  // direction allows that, money in as a deposit or a transfer, money out as a withdrawal or a
  // transfer; else as its direction says.
  lemma ProposedTypeMeans(direction: string, confirmed: string, proposed: string)
    requires Lower(Trim(confirmed)) !in {"withdrawal", "deposit", "transfer"}
    ensures var incoming := Lower(direction) == Lower("INCOMING");
      ResolvedKind(direction, confirmed, proposed, false)
      == if Lower(Trim(proposed)) == "transfer" then Transfer else if incoming then Deposit else Withdrawal
    ensures ResolvedKind(direction, confirmed, proposed, true) == Transfer
  {
    assert "withdrawal"[0] != "deposit"[0] && "deposit"[0] != "transfer"[0] && "withdrawal"[0] != "transfer"[0];
  }

  // A chosen type is the one named, in any case and padding.
  lemma ChosenTypeMeans(direction: string, confirmed: string, proposed: string, bothMine: bool)
    ensures var kind := ResolvedKind(direction, confirmed, proposed, bothMine);
      && (Lower(Trim(confirmed)) == "withdrawal" ==> kind == Withdrawal)
      && (Lower(Trim(confirmed)) == "deposit" ==> kind == Deposit)
      && (Lower(Trim(confirmed)) == "transfer" ==> kind == Transfer)
  {
    assert "withdrawal"[0] != "deposit"[0] && "deposit"[0] != "transfer"[0] && "withdrawal"[0] != "transfer"[0];
  }
}

// Two Spies (src/games/two_spies.rs): chance deals each player an
// identity, P1 declares one (truthfully or not), and P2 trusts or accuses.
// P1 wins 1 when trusted after telling the truth or accused after lying,
// and loses 1 otherwise.
module TwoSpies {
  import opened Wrappers
  import opened Players

  datatype Identity = Spy | Merchant

  datatype Action = DeclareSpy | DeclareMerchant | Trust | Accuse

  /** What one player has seen: their own identity and P1's declaration. */
  datatype Trace = Trace(myIdentity: Option<Identity>, p1Declaration: Option<Action>)

  datatype State = State(
    p1Id: Option<Identity>,
    p2Id: Option<Identity>,
    p1Decl: Option<Action>,
    p2Resp: Option<Action>,
    toMove: Player)

  /** `TwoSpies::new`: nothing dealt, declared or answered; chance to move. */
  function New(): (s: State)
    ensures s.toMove == Chance && s.p1Decl.None? && s.p2Resp.None?
  {
    State(None, None, None, None, Chance)
  }

  /** Each player sees their own identity and P1's declaration; chance sees only the declaration. */
  function TraceOf(s: State, player: Player): (t: Trace)
    ensures t.p1Declaration == s.p1Decl
    ensures t.myIdentity == match player case P1 => s.p1Id case P2 => s.p2Id case Chance => None
  {
    match player
    case P1 => Trace(s.p1Id, s.p1Decl)
    case P2 => Trace(s.p2Id, s.p1Decl)
    case Chance => Trace(None, s.p1Decl)
  }

  /** Traces compare only by equality. */
  function Compare(a: Trace, b: Trace): (r: Option<Ordering>)
    ensures r.Some? <==> a == b
    ensures r.Some? ==> r.value == Equal
  {
    if a == b then Some(Equal) else None
  }

  function AvailableActions(s: State): (r: seq<Action>)
    ensures s.toMove == Chance ==> r == []
    ensures s.toMove == P1 ==> r == (if s.p1Decl.None? then [DeclareSpy, DeclareMerchant] else [])
    ensures s.toMove == P2 ==> r == (if s.p1Decl.Some? then [Trust, Accuse] else [])
  {
    match s.toMove
    case Chance => []
    case P1 => if s.p1Decl.None? then [DeclareSpy, DeclareMerchant] else []
    case P2 => if s.p1Decl.Some? then [Trust, Accuse] else []
  }

  /**
   * `play`. At a chance node the action is ignored and the two identities
   * drawn at random (`deal1`, `deal2`) are dealt; P1's action is recorded as
   * the declaration and P2's as the response, after which chance is marked
   * to move and the game is over.
   */
  function Play(s: State, a: Action, deal1: Identity, deal2: Identity): (t: State)
    ensures s.toMove == Chance ==> t == s.(p1Id := Some(deal1), p2Id := Some(deal2), toMove := P1)
    ensures s.toMove == P1 ==> t == s.(p1Decl := Some(a), toMove := P2)
    ensures s.toMove == P2 ==> t == s.(p2Resp := Some(a), toMove := Chance)
  {
    match s.toMove
    case Chance => s.(p1Id := Some(deal1), p2Id := Some(deal2), toMove := P1)
    case P1 => s.(p1Decl := Some(a), toMove := P2)
    case P2 => s.(p2Resp := Some(a), toMove := Chance)
  }

  predicate IsOver(s: State)
  {
    s.p2Resp.Some?
  }

  predicate Truthful(id: Identity, decl: Action)
  {
    (id == Spy && decl == DeclareSpy) || (id == Merchant && decl == DeclareMerchant)
  }

  /** `evaluate`: 0 until P2 answers; the source unwraps P1's identity and declaration then. */
  function Evaluate(s: State): (v: real)
    requires IsOver(s) ==> s.p1Id.Some? && s.p1Decl.Some?
    ensures -1.0 <= v <= 1.0
    ensures !IsOver(s) ==> v == 0.0
  {
    if !IsOver(s) then 0.0
    else
      var truthful := Truthful(s.p1Id.value, s.p1Decl.value);
      match s.p2Resp.value
      case Trust => if truthful then 1.0 else -1.0
      case Accuse => if truthful then -1.0 else 1.0
      case _ => 0.0
  }

  /** A finished game pays P1 +1 exactly when trust meets the truth or an accusation meets a lie. */
  lemma {:induction false} EvaluateWins(s: State)
    requires IsOver(s) && s.p1Id.Some? && s.p1Decl.Some?
    requires s.p2Resp.value in {Trust, Accuse}
    ensures Evaluate(s) == 1.0 <==> (s.p2Resp.value == Trust <==> Truthful(s.p1Id.value, s.p1Decl.value))
    ensures Evaluate(s) == -1.0 <==> (s.p2Resp.value == Trust <==> !Truthful(s.p1Id.value, s.p1Decl.value))
  {
  }

  /** After a deal, a declaration and a response the game is over, and only then. */
  lemma {:induction false} PlayReachesEnd(a: Action, b: Action, c: Action, d1: Identity, d2: Identity)
    ensures var s1 := Play(New(), a, d1, d2);
      var s2 := Play(s1, b, d1, d2);
      var s3 := Play(s2, c, d1, d2);
      !IsOver(s1) && !IsOver(s2) && IsOver(s3) &&
      s3.p1Id == Some(d1) && s3.p2Id == Some(d2) && s3.p1Decl == Some(b) && s3.p2Resp == Some(c) &&
      AvailableActions(s3) == []
  {
  }

  /** `sample_position`: P2 to move after the traced declaration, with the opponent a spy and then a merchant. */
  function SamplePosition(t: Trace): (r: seq<State>)
    ensures |r| == 2
    ensures forall k :: 0 <= k < 2 ==> r[k].toMove == P2 && r[k].p1Id == t.myIdentity && r[k].p1Decl == t.p1Declaration && r[k].p2Resp.None?
    ensures r[0].p2Id == Some(Spy) && r[1].p2Id == Some(Merchant)
  {
    seq(2, k => State(t.myIdentity, Some(if k == 0 then Spy else Merchant), t.p1Declaration, None, P2))
  }

  /** A sampled position keeps the trace P1 would have seen. */
  lemma {:induction false} SamplePositionKeepsP1Trace(t: Trace, k: nat)
    requires k < 2
    ensures TraceOf(SamplePosition(t)[k], P1) == t
  {
  }
}

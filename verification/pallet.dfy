/** The game's dispatchable calls as pure transitions over the persisted state
    (the stage and the roster of at most two player slots). */
module Pallet {
  import opened Types

  /** Errors a call can fail with. `GameFull` is declared but no call raises it. */
  datatype Error =
    | AlreadyRegistered
    | GameFull
    | WrongStage
    | AlreadyCommitted
    | NotAPlayer
    | AlreadyRevealed
    | HashMismatch

  /** Events a successful call deposits. */
  datatype Event =
    | Registered(who: AccountId)
    | Committed(who: AccountId, hash: Hash)
    | Revealed(who: AccountId, move: Move)
    | Finished(winner: Option<AccountId>)

  /** Result of a call: success with a value, a declared error, or a panic of an
      `expect` on a value that is absent. */
  datatype Outcome<+T> = Ok(value: T) | Err(error: Error) | Panic

  /** Two outcomes that fail in the same way. */
  predicate SameFailure<A, B>(a: Outcome<A>, b: Outcome<B>)
  {
    || (a.Err? && b.Err? && a.error == b.error)
    || (a.Panic? && b.Panic?)
  }

  /** The roster is a bounded vector of capacity two. */
  const Capacity: nat := 2

  type Roster = r: seq<Slot> | |r| <= Capacity witness []

  datatype State = State(stage: Stage, roster: Roster)

  /** New state to store, and the event to deposit. */
  datatype Effect = Effect(state: State, event: Event)

  /** Both storage items at their default values. */
  const Genesis: State := State(DefaultStage(), [])

  /** The hash of the encoded move followed by the encoded nonce; any function will do. */
  type Hashing = (Move, U128) -> Hash

  /** `who` owns some slot of the roster. */
  predicate IsPlayer(r: seq<Slot>, who: AccountId)
  {
    exists i :: 0 <= i < |r| && r[i].account == who
  }

  /** Every slot of `who` before position `i` passes `check`. */
  predicate PassBefore(r: seq<Slot>, who: AccountId, check: Slot -> Outcome<Slot>, i: int)
  {
    forall j :: 0 <= j < i && j < |r| && r[j].account == who ==> check(r[j]).Ok?
  }

  /** Bounded push that never fails: the vector is first truncated to one less than its
      capacity, then the element is appended. */
  function ForcePush(r: Roster, x: Slot): (r': Roster)
    ensures |r| < Capacity ==> r' == r + [x]
    ensures |r| == Capacity ==> r' == [r[0], x]
  {
    (if |r| == 0 then [] else r[..1]) + [x]
  }

  /** The registration call: allowed while waiting for players; the caller must not be
      the first registered account. Appends an empty slot and advances the stage. */
  function Register(s: State, who: AccountId): (o: Outcome<Effect>)
    ensures !o.Panic?
    ensures !s.stage.WaitingForPlayers? ==> o == Err(WrongStage)
    ensures s.stage.WaitingForPlayers? ==>
              (o.Err? <==> |s.roster| > 0 && s.roster[0].account == who)
    ensures s.stage.WaitingForPlayers? && o.Err? ==> o.error == AlreadyRegistered
    ensures o.Ok? ==>
              && o.value.event == Registered(who)
              && Rank(o.value.state.stage) == Rank(s.stage) + 1
              && (|s.roster| < Capacity ==>
                    o.value.state.roster == s.roster + [Slot(who, None, None)])
  {
    if !s.stage.WaitingForPlayers? then Err(WrongStage)
    else if |s.roster| > 0 && s.roster[0].account == who then Err(AlreadyRegistered)
    else Ok(Effect(State(Next(s.stage), ForcePush(s.roster, Slot(who, None, None))),
                   Registered(who)))
  }

  /** The loop shared by commit and reveal: every slot of `who` is passed through
      `check`, in roster order; the first failing check aborts the scan. On success
      it returns the updated roster and whether `who` owned any slot. */
  function Scan(r: seq<Slot>, who: AccountId, check: Slot -> Outcome<Slot>)
    : (res: Outcome<(seq<Slot>, bool)>)
    ensures res.Ok? <==> forall i :: 0 <= i < |r| && r[i].account == who ==> check(r[i]).Ok?
    ensures res.Ok? ==> |res.value.0| == |r|
    ensures res.Ok? ==>
              forall i :: 0 <= i < |r| ==>
                res.value.0[i] == if r[i].account == who then check(r[i]).value else r[i]
    ensures res.Ok? ==> (res.value.1 <==> IsPlayer(r, who))
    ensures forall i :: 0 <= i < |r| && r[i].account == who && !check(r[i]).Ok? && PassBefore(r, who, check, i)
              ==> SameFailure(res, check(r[i]))
    decreases |r|
  {
    if |r| == 0 then Ok(([], false))
    else
      var head := if r[0].account == who then check(r[0]) else Ok(r[0]);
      match head
      case Err(e) => Err(e)
      case Panic => Panic
      case Ok(h) =>
        match Scan(r[1..], who, check)
        case Err(e) => Err(e)
        case Panic => Panic
        case Ok(rest) =>
          assert forall i :: 1 <= i < |r| ==> r[i] == r[1..][i - 1];
          assert IsPlayer(r, who) <==> r[0].account == who || IsPlayer(r[1..], who) by {
            if IsPlayer(r, who) && r[0].account != who {
              var i :| 0 <= i < |r| && r[i].account == who;
              assert r[1..][i - 1].account == who;
            }
            if IsPlayer(r[1..], who) {
              var i :| 0 <= i < |r[1..]| && r[1..][i].account == who;
              assert r[i + 1].account == who;
            }
          }
          Ok(([h] + rest.0, r[0].account == who || rest.1))
  }

  /** What commit does to the caller's slot: refuse a second commitment, else store the hash. */
  function CheckCommit(x: Slot, hash: Hash): (o: Outcome<Slot>)
    ensures o.Ok? <==> x.commitment.None?
    ensures o.Err? ==> o.error == AlreadyCommitted
    ensures o.Ok? ==> o.value == x.(commitment := Some(hash))
  {
    if x.commitment.Some? then Err(AlreadyCommitted)
    else Ok(x.(commitment := Some(hash)))
  }

  /** The commit call: allowed in a commit stage, by a player who has not committed yet.
      Stores the hash in the caller's slot and advances the stage. */
  function CommitHash(s: State, who: AccountId, hash: Hash): (o: Outcome<Effect>)
    ensures !o.Panic?
    ensures !s.stage.Commit? ==> o == Err(WrongStage)
    ensures s.stage.Commit? && !IsPlayer(s.roster, who) ==> o == Err(NotAPlayer)
    ensures s.stage.Commit? &&
            (exists i :: 0 <= i < |s.roster| && s.roster[i].account == who && s.roster[i].commitment.Some?)
            ==> o == Err(AlreadyCommitted)
    ensures o.Ok? <==>
              && s.stage.Commit?
              && IsPlayer(s.roster, who)
              && forall i :: 0 <= i < |s.roster| && s.roster[i].account == who ==> s.roster[i].commitment.None?
    ensures o.Ok? ==>
              && o.value.event == Committed(who, hash)
              && Rank(o.value.state.stage) == Rank(s.stage) + 1
              && |o.value.state.roster| == |s.roster|
              && forall i :: 0 <= i < |s.roster| ==>
                   o.value.state.roster[i] ==
                     if s.roster[i].account == who then s.roster[i].(commitment := Some(hash))
                     else s.roster[i]
  {
    if !s.stage.Commit? then Err(WrongStage)
    else
      var scan := Scan(s.roster, who, x => CheckCommit(x, hash));
      match scan
      case Err(e) => Err(e)
      case Panic => Panic
      case Ok((r, found)) =>
        if !found then Err(NotAPlayer)
        else Ok(Effect(State(Next(s.stage), r), Committed(who, hash)))
  }

  /** What reveal does to the caller's slot: refuse a second reveal, panic when no
      commitment is stored, refuse a move and nonce whose hash differs from the
      commitment, else record the move. */
  function CheckReveal(x: Slot, move: Move, nonce: U128, hashing: Hashing): (o: Outcome<Slot>)
    ensures o.Ok? <==> x.revealed.None? && x.commitment == Some(hashing(move, nonce))
    ensures o.Panic? <==> x.revealed.None? && x.commitment.None?
    ensures o.Err? && x.revealed.Some? ==> o.error == AlreadyRevealed
    ensures o.Err? && x.revealed.None? ==> o.error == HashMismatch
    ensures o.Ok? ==> o.value == x.(revealed := Some(move))
  {
    if x.revealed.Some? then Err(AlreadyRevealed)
    else if x.commitment.None? then Panic
    else if hashing(move, nonce) != x.commitment.value then Err(HashMismatch)
    else Ok(x.(revealed := Some(move)))
  }

  /** The reveal call: allowed in a reveal stage, by a player who has not revealed yet
      and whose commitment is the hash of the move and nonce. Records the move and
      advances the stage. The first slot of the caller that fails decides the failure. */
  function RevealMove(s: State, who: AccountId, move: Move, nonce: U128, hashing: Hashing)
    : (o: Outcome<Effect>)
    ensures !s.stage.Reveal? ==> o == Err(WrongStage)
    ensures s.stage.Reveal? && !IsPlayer(s.roster, who) ==> o == Err(NotAPlayer)
    ensures forall i ::
              && s.stage.Reveal? && 0 <= i < |s.roster| && s.roster[i].account == who
              && (forall j :: 0 <= j < i && s.roster[j].account == who ==>
                    s.roster[j].revealed.None? && s.roster[j].commitment == Some(hashing(move, nonce)))
              ==>
              && (s.roster[i].revealed.Some? ==> o == Err(AlreadyRevealed))
              && (s.roster[i].revealed.None? && s.roster[i].commitment.None? ==> o.Panic?)
              && (s.roster[i].revealed.None? && s.roster[i].commitment.Some?
                    && s.roster[i].commitment.value != hashing(move, nonce)
                  ==> o == Err(HashMismatch))
    ensures o.Ok? <==>
              && s.stage.Reveal?
              && IsPlayer(s.roster, who)
              && forall i :: 0 <= i < |s.roster| && s.roster[i].account == who ==>
                   s.roster[i].revealed.None? && s.roster[i].commitment == Some(hashing(move, nonce))
    ensures o.Ok? ==>
              && o.value.event == Revealed(who, move)
              && Rank(o.value.state.stage) == Rank(s.stage) + 1
              && |o.value.state.roster| == |s.roster|
              && forall i :: 0 <= i < |s.roster| ==>
                   o.value.state.roster[i] ==
                     if s.roster[i].account == who then s.roster[i].(revealed := Some(move))
                     else s.roster[i]
  {
    if !s.stage.Reveal? then Err(WrongStage)
    else
      var scan := Scan(s.roster, who, x => CheckReveal(x, move, nonce, hashing));
      match scan
      case Err(e) => Err(e)
      case Panic => Panic
      case Ok((r, found)) =>
        if !found then Err(NotAPlayer)
        else Ok(Effect(State(Next(s.stage), r), Revealed(who, move)))
  }

  /** When the caller owns two slots and only the second fails, the second slot's
      failure is the one reported, as the loop reaches it after updating the first. */
  lemma LaterSlotDecides(who: AccountId, move: Move, nonce: U128, hashing: Hashing, st: Stage)
    requires st.Reveal?
    ensures var h := Some(hashing(move, nonce));
            RevealMove(State(st, [Slot(who, h, None), Slot(who, h, Some(move))]), who, move, nonce, hashing)
              == Err(AlreadyRevealed)
  {
  }

  /** Which of the two players won a round. */
  datatype Side = First | Second

  /** The move each move defeats. */
  function Prey(m: Move): Move
  {
    match m
    case Paper => Rock
    case Rock => Scissors
    case Scissors => Paper
  }

  /** Cyclic dominance: paper beats rock, rock beats scissors, scissors beat paper. */
  predicate Beats(a: Move, b: Move)
  {
    b == Prey(a)
  }

  /** The winner table applied to the first and the second player's moves. */
  function Resolve(a: Move, b: Move): (w: Option<Side>)
    ensures w == Some(First) <==> Beats(a, b)
    ensures w == Some(Second) <==> Beats(b, a)
    ensures w == None <==> a == b
  {
    match (a, b)
    case (Paper, Rock) | (Rock, Scissors) | (Scissors, Paper) => Some(First)
    case (Rock, Paper) | (Scissors, Rock) | (Paper, Scissors) => Some(Second)
    case _ => None
  }

  /** The finishing call: allowed only in the terminal stage. Reads the first and the
      last slot's revealed moves (panicking when one is absent), announces the winner
      and writes nothing. */
  function FinishGame(s: State): (o: Outcome<Effect>)
    ensures s.stage != Final ==> o == Err(WrongStage)
    ensures o.Ok? ==> o.value.state == s
    ensures o.Panic? <==>
              s.stage == Final &&
              (|s.roster| == 0 || s.roster[0].revealed.None? || s.roster[|s.roster| - 1].revealed.None?)
    ensures s.stage == Final && |s.roster| == Capacity
            && s.roster[0].revealed.Some? && s.roster[1].revealed.Some? ==>
              var a, b := s.roster[0].revealed.value, s.roster[1].revealed.value;
              o == Ok(Effect(s, Finished(
                     if Beats(a, b) then Some(s.roster[0].account)
                     else if Beats(b, a) then Some(s.roster[1].account)
                     else None)))
  {
    if s.stage != Final then Err(WrongStage)
    else if |s.roster| == 0 then Panic
    else
      var first := s.roster[0];
      if first.revealed.None? then Panic
      else
        var last := s.roster[|s.roster| - 1];
        if last.revealed.None? then Panic
        else
          var winner :=
            match Resolve(first.revealed.value, last.revealed.value)
            case Some(First) => Some(first.account)
            case Some(Second) => Some(last.account)
            case None => None;
          Ok(Effect(s, Finished(winner)))
  }

  /** The winner table covers all nine ordered pairs: three wins for the first player,
      three for the second, three ties. */
  lemma ResolveTable()
    ensures (set a, b | a in AllMoves && b in AllMoves && Resolve(a, b) == Some(First) :: (a, b))
            == {(Paper, Rock), (Rock, Scissors), (Scissors, Paper)}
    ensures (set a, b | a in AllMoves && b in AllMoves && Resolve(a, b) == Some(Second) :: (a, b))
            == {(Rock, Paper), (Scissors, Rock), (Paper, Scissors)}
    ensures (set a, b | a in AllMoves && b in AllMoves && Resolve(a, b) == None :: (a, b))
            == {(Rock, Rock), (Paper, Paper), (Scissors, Scissors)}
    ensures |{(Paper, Rock), (Rock, Scissors), (Scissors, Paper)}| == 3
  {
  }

  /** A call submitted to the game, with its (already authenticated) caller. */
  datatype Call =
    | CallRegister(who: AccountId)
    | CallCommit(who: AccountId, hash: Hash)
    | CallReveal(who: AccountId, move: Move, nonce: U128)
    | CallFinish(who: AccountId)

  function Dispatch(s: State, c: Call, hashing: Hashing): Outcome<Effect>
  {
    match c
    case CallRegister(who) => Register(s, who)
    case CallCommit(who, hash) => CommitHash(s, who, hash)
    case CallReveal(who, move, nonce) => RevealMove(s, who, move, nonce, hashing)
    case CallFinish(_) => FinishGame(s)
  }

  /** The stored state after executing one call: the new state on success, the old
      one when the call failed or panicked. */
  function Step(s: State, c: Call, hashing: Hashing): State
  {
    match Dispatch(s, c, hashing)
    case Ok(e) => e.state
    case _ => s
  }

  /** Execute calls one after the other, as the host serializes them. */
  function Run(s: State, calls: seq<Call>, hashing: Hashing): State
    decreases |calls|
  {
    if |calls| == 0 then s else Run(Step(s, calls[0], hashing), calls[1..], hashing)
  }

  /** The stage in which a call is accepted. */
  predicate AllowedIn(st: Stage, c: Call)
  {
    match c
    case CallRegister(_) => st.WaitingForPlayers?
    case CallCommit(_, _) => st.Commit?
    case CallReveal(_, _, _) => st.Reveal?
    case CallFinish(_) => st == Final
  }

  /** A call made in the wrong stage fails with `WrongStage` and stores nothing. */
  lemma WrongStageRejected(s: State, c: Call, hashing: Hashing)
    requires !AllowedIn(s.stage, c)
    ensures Dispatch(s, c, hashing) == Err(WrongStage)
    ensures Step(s, c, hashing) == s
  {
  }

  /** A successful call always advances the stage by one position, except finishing,
      which leaves the terminal stage in place. */
  lemma SuccessAdvances(s: State, c: Call, hashing: Hashing)
    requires Dispatch(s, c, hashing).Ok?
    ensures AllowedIn(s.stage, c)
    ensures !c.CallFinish? ==> Rank(Step(s, c, hashing).stage) == Rank(s.stage) + 1
    ensures c.CallFinish? ==> Step(s, c, hashing) == s
  {
  }
}

/** The reachable-state invariant: the stage's sub-count equals the number of slots that
    completed the stage's action. It is what keeps every `expect` of the calls from
    panicking. */
module GameInvariant {
  import opened Types
  import opened Pallet

  /** Number of slots holding a commitment. */
  function CountCommitted(r: seq<Slot>): nat
    decreases |r|
  {
    if |r| == 0 then 0
    else (if r[0].commitment.Some? then 1 else 0) + CountCommitted(r[1..])
  }

  /** Number of slots holding a revealed move. */
  function CountRevealed(r: seq<Slot>): nat
    decreases |r|
  {
    if |r| == 0 then 0
    else (if r[0].revealed.Some? then 1 else 0) + CountRevealed(r[1..])
  }

  /** The counts of a two-slot roster, slot by slot. */
  lemma CountPair(r: seq<Slot>)
    requires |r| == 2
    ensures CountCommitted(r) == (if r[0].commitment.Some? then 1 else 0) + (if r[1].commitment.Some? then 1 else 0)
    ensures CountRevealed(r) == (if r[0].revealed.Some? then 1 else 0) + (if r[1].revealed.Some? then 1 else 0)
  {
    var tail := r[1..];
    assert tail[0] == r[1] && tail[1..] == [];
    assert CountCommitted(tail) == (if r[1].commitment.Some? then 1 else 0) + CountCommitted(tail[1..]);
    assert CountRevealed(tail) == (if r[1].revealed.Some? then 1 else 0) + CountRevealed(tail[1..]);
  }

  predicate DistinctAccounts(r: seq<Slot>)
  {
    forall i, j :: 0 <= i < j < |r| ==> r[i].account != r[j].account
  }

  predicate Empty(x: Slot)
  {
    x.commitment.None? && x.revealed.None?
  }

  /** Every reachable state satisfies this. */
  predicate Inv(s: State)
  {
    var r := s.roster;
    && DistinctAccounts(r)
    && match s.stage
       case WaitingForPlayers(c) =>
         |r| == CountValue(c) && forall i :: 0 <= i < |r| ==> Empty(r[i])
       case Commit(c) =>
         |r| == 2 && CountCommitted(r) == CountValue(c) && forall i :: 0 <= i < |r| ==> r[i].revealed.None?
       case Reveal(c) =>
         |r| == 2 && CountRevealed(r) == CountValue(c) && forall i :: 0 <= i < |r| ==> r[i].commitment.Some?
       case Final =>
         |r| == 2 && forall i :: 0 <= i < |r| ==> r[i].commitment.Some? && r[i].revealed.Some?
  }

  lemma GenesisInv()
    ensures Inv(Genesis)
  {
  }

  /** What the invariant guarantees the calls rely on: at most two distinct players, a
      commitment in every slot once the reveal stage is reached, and two revealed
      moves in the terminal stage. */
  lemma InvGuarantees(s: State)
    requires Inv(s)
    ensures |s.roster| <= Capacity && DistinctAccounts(s.roster)
    ensures s.stage.WaitingForPlayers? ==> |s.roster| < Capacity
    ensures s.stage.Reveal? ==> forall i :: 0 <= i < |s.roster| ==> s.roster[i].commitment.Some?
    ensures s.stage == Final ==>
              |s.roster| == 2 && s.roster[0].revealed.Some? && s.roster[1].revealed.Some?
  {
  }

  /** With distinct accounts, the only slot of `who` is its first one. */
  lemma UniqueSlot(r: seq<Slot>, who: AccountId, i: int)
    requires DistinctAccounts(r)
    requires 0 <= i < |r| && r[i].account == who
    ensures forall j :: 0 <= j < |r| && r[j].account == who ==> j == i
  {
  }

  /** With distinct accounts, a commit by the owner of slot `k` fails with
      `AlreadyCommitted` when that slot already holds a commitment; otherwise it stores
      the hash in slot `k` and in no other, and advances the stage. */
  lemma CommitAt(s: State, k: nat, hash: Hash)
    requires s.stage.Commit? && DistinctAccounts(s.roster) && k < |s.roster|
    ensures CommitHash(s, s.roster[k].account, hash) ==
              if s.roster[k].commitment.Some? then Err(AlreadyCommitted)
              else Ok(Effect(State(Next(s.stage), s.roster[k := s.roster[k].(commitment := Some(hash))]),
                             Committed(s.roster[k].account, hash)))
  {
    var who := s.roster[k].account;
    UniqueSlot(s.roster, who, k);
    var o := CommitHash(s, who, hash);
    if o.Ok? {
      assert o.value.state.roster == s.roster[k := s.roster[k].(commitment := Some(hash))];
    }
  }

  /** With distinct accounts, a reveal by the owner of slot `k` fails with
      `AlreadyRevealed` after a first reveal, panics when no commitment is stored, fails
      with `HashMismatch` unless the move and nonce hash to the commitment, and otherwise
      records the move in slot `k` and in no other, and advances the stage. */
  lemma RevealAt(s: State, k: nat, move: Move, nonce: U128, hashing: Hashing)
    requires s.stage.Reveal? && DistinctAccounts(s.roster) && k < |s.roster|
    ensures RevealMove(s, s.roster[k].account, move, nonce, hashing) ==
              if s.roster[k].revealed.Some? then Err(AlreadyRevealed)
              else if s.roster[k].commitment.None? then Panic
              else if s.roster[k].commitment.value != hashing(move, nonce) then Err(HashMismatch)
              else Ok(Effect(State(Next(s.stage), s.roster[k := s.roster[k].(revealed := Some(move))]),
                             Revealed(s.roster[k].account, move)))
  {
    var who := s.roster[k].account;
    UniqueSlot(s.roster, who, k);
    var o := RevealMove(s, who, move, nonce, hashing);
    if o.Ok? {
      assert o.value.state.roster == s.roster[k := s.roster[k].(revealed := Some(move))];
    }
  }

  lemma RegisterPreserves(s: State, who: AccountId)
    requires Inv(s)
    ensures Register(s, who).Ok? ==> Inv(Register(s, who).value.state)
  {
    var o := Register(s, who);
    if o.Ok? && |o.value.state.roster| == 2 {
      CountPair(o.value.state.roster);
    }
  }

  lemma CommitPreserves(s: State, who: AccountId, hash: Hash)
    requires Inv(s)
    ensures CommitHash(s, who, hash).Ok? ==> Inv(CommitHash(s, who, hash).value.state)
  {
    var o := CommitHash(s, who, hash);
    if o.Ok? {
      var r, r' := s.roster, o.value.state.roster;
      CountPair(r);
      CountPair(r');
      var k :| 0 <= k < |r| && r[k].account == who;
      UniqueSlot(r, who, k);
    }
  }

  lemma RevealPreserves(s: State, who: AccountId, move: Move, nonce: U128, hashing: Hashing)
    requires Inv(s)
    ensures RevealMove(s, who, move, nonce, hashing).Ok? ==>
              Inv(RevealMove(s, who, move, nonce, hashing).value.state)
  {
    var o := RevealMove(s, who, move, nonce, hashing);
    if o.Ok? {
      var r, r' := s.roster, o.value.state.roster;
      CountPair(r);
      CountPair(r');
      var k :| 0 <= k < |r| && r[k].account == who;
      UniqueSlot(r, who, k);
    }
  }

  /** Every call, successful or not, keeps the invariant. */
  lemma StepPreserves(s: State, c: Call, hashing: Hashing)
    requires Inv(s)
    ensures Inv(Step(s, c, hashing))
  {
    match c
    case CallRegister(who) => RegisterPreserves(s, who);
    case CallCommit(who, hash) => CommitPreserves(s, who, hash);
    case CallReveal(who, move, nonce) => RevealPreserves(s, who, move, nonce, hashing);
    case CallFinish(_) =>
  }

  lemma {:induction false} RunPreserves(s: State, calls: seq<Call>, hashing: Hashing)
    requires Inv(s)
    ensures Inv(Run(s, calls, hashing))
    decreases |calls|
  {
    if |calls| > 0 {
      StepPreserves(s, calls[0], hashing);
      RunPreserves(Step(s, calls[0], hashing), calls[1..], hashing);
    }
  }

  /** Every state reached from genesis by any sequence of calls satisfies the invariant. */
  lemma ReachableInv(calls: seq<Call>, hashing: Hashing)
    ensures Inv(Run(Genesis, calls, hashing))
  {
    GenesisInv();
    RunPreserves(Genesis, calls, hashing);
  }

  /** Under the invariant no call panics. */
  lemma NoPanic(s: State, c: Call, hashing: Hashing)
    requires Inv(s)
    ensures !Dispatch(s, c, hashing).Panic?
  {
    match c
    case CallReveal(who, move, nonce) =>
      if s.stage.Reveal? && IsPlayer(s.roster, who) {
        var k :| 0 <= k < |s.roster| && s.roster[k].account == who;
        UniqueSlot(s.roster, who, k);
      }
    case _ =>
  }

  /** No call panics in any state reachable from genesis. */
  lemma ReachableNoPanic(calls: seq<Call>, c: Call, hashing: Hashing)
    ensures !Dispatch(Run(Genesis, calls, hashing), c, hashing).Panic?
  {
    ReachableInv(calls, hashing);
    NoPanic(Run(Genesis, calls, hashing), c, hashing);
  }

  /** On reachable states the duplicate check against the first slot suffices: a
      registration never truncates the roster and keeps the accounts distinct, and
      once two players are in a third registration fails with `WrongStage`. */
  lemma RegisterOnReachable(s: State, who: AccountId)
    requires Inv(s)
    ensures |s.roster| == 2 ==> Register(s, who) == Err(WrongStage)
    ensures s.stage.WaitingForPlayers? && !IsPlayer(s.roster, who) ==>
              Register(s, who).Ok? && Register(s, who).value.state.roster == s.roster + [Slot(who, None, None)]
    ensures s.stage.WaitingForPlayers? && IsPlayer(s.roster, who) ==> Register(s, who) == Err(AlreadyRegistered)
  {
  }

  /** The declared `GameFull` error is never produced by any call in any state. */
  lemma GameFullNeverRaised(s: State, c: Call, hashing: Hashing)
    ensures Dispatch(s, c, hashing) != Err(GameFull)
  {
  }

  /** Finishing stores nothing, so finishing again gives the same outcome. */
  lemma FinishIdempotent(s: State, caller: AccountId, hashing: Hashing)
    ensures Step(s, CallFinish(caller), hashing) == s
    ensures Dispatch(Step(s, CallFinish(caller), hashing), CallFinish(caller), hashing)
            == Dispatch(s, CallFinish(caller), hashing)
  {
  }

  /** Every revealed move is bound to its slot's commitment: some nonce hashes it to
      the stored hash. */
  predicate RevealsBound(s: State, hashing: Hashing)
  {
    forall i :: 0 <= i < |s.roster| && s.roster[i].revealed.Some? ==>
      s.roster[i].commitment.Some? &&
      exists n: U128 :: hashing(s.roster[i].revealed.value, n) == s.roster[i].commitment.value
  }

  lemma StepKeepsRevealsBound(s: State, c: Call, hashing: Hashing)
    requires Inv(s) && RevealsBound(s, hashing)
    ensures RevealsBound(Step(s, c, hashing), hashing)
  {
    var s' := Step(s, c, hashing);
    match c
    case CallRegister(who) =>
    case CallCommit(who, hash) =>
    case CallReveal(who, move, nonce) =>
      if Dispatch(s, c, hashing).Ok? {
        forall i | 0 <= i < |s'.roster| && s'.roster[i].revealed.Some?
          ensures s'.roster[i].commitment.Some?
          ensures exists n: U128 :: hashing(s'.roster[i].revealed.value, n) == s'.roster[i].commitment.value
        {
          if s.roster[i].account == who {
            assert hashing(move, nonce) == s'.roster[i].commitment.value;
          }
        }
      }
    case CallFinish(_) =>
  }

  lemma {:induction false} ReachableRevealsBound(s: State, calls: seq<Call>, hashing: Hashing)
    requires Inv(s) && RevealsBound(s, hashing)
    ensures RevealsBound(Run(s, calls, hashing), hashing)
    decreases |calls|
  {
    if |calls| > 0 {
      StepKeepsRevealsBound(s, calls[0], hashing);
      StepPreserves(s, calls[0], hashing);
      ReachableRevealsBound(Step(s, calls[0], hashing), calls[1..], hashing);
    }
  }
}

/** Concrete games played from genesis. */
module Scenario {
  import opened Types
  import opened Pallet
  import opened GameInvariant

  /** Commit on a two-slot roster, by the owner of either slot. */
  lemma CommitPair(st: Stage, x: Slot, y: Slot, hash: Hash)
    requires st.Commit? && x.account != y.account
    ensures CommitHash(State(st, [x, y]), x.account, hash) ==
              if x.commitment.Some? then Err(AlreadyCommitted)
              else Ok(Effect(State(Next(st), [x.(commitment := Some(hash)), y]), Committed(x.account, hash)))
    ensures CommitHash(State(st, [x, y]), y.account, hash) ==
              if y.commitment.Some? then Err(AlreadyCommitted)
              else Ok(Effect(State(Next(st), [x, y.(commitment := Some(hash))]), Committed(y.account, hash)))
  {
    var s := State(st, [x, y]);
    CommitAt(s, 0, hash);
    CommitAt(s, 1, hash);
    assert s.roster[0 := x.(commitment := Some(hash))] == [x.(commitment := Some(hash)), y];
    assert s.roster[1 := y.(commitment := Some(hash))] == [x, y.(commitment := Some(hash))];
  }

  /** Reveal on a two-slot roster, by the owner of either slot. */
  lemma RevealPair(st: Stage, x: Slot, y: Slot, move: Move, nonce: U128, hashing: Hashing)
    requires st.Reveal? && x.account != y.account
    requires x.commitment.Some? && y.commitment.Some?
    ensures RevealMove(State(st, [x, y]), x.account, move, nonce, hashing) ==
              if x.revealed.Some? then Err(AlreadyRevealed)
              else if x.commitment.value != hashing(move, nonce) then Err(HashMismatch)
              else Ok(Effect(State(Next(st), [x.(revealed := Some(move)), y]), Revealed(x.account, move)))
    ensures RevealMove(State(st, [x, y]), y.account, move, nonce, hashing) ==
              if y.revealed.Some? then Err(AlreadyRevealed)
              else if y.commitment.value != hashing(move, nonce) then Err(HashMismatch)
              else Ok(Effect(State(Next(st), [x, y.(revealed := Some(move))]), Revealed(y.account, move)))
  {
    var s := State(st, [x, y]);
    RevealAt(s, 0, move, nonce, hashing);
    RevealAt(s, 1, move, nonce, hashing);
    assert s.roster[0 := x.(revealed := Some(move))] == [x.(revealed := Some(move)), y];
    assert s.roster[1 := y.(revealed := Some(move))] == [x, y.(revealed := Some(move))];
  }

  /** Two different accounts register; the game moves on to the commit stage, and any
      further registration, whoever makes it, fails with `WrongStage`. Registering the
      same account twice fails with `AlreadyRegistered`. */
  lemma TwoRegistrations(a: AccountId, b: AccountId, c: AccountId, hashing: Hashing)
    ensures Register(Genesis, a).Ok?
    ensures Register(Step(Genesis, CallRegister(a), hashing), a) == Err(AlreadyRegistered)
    ensures a != b ==>
              var s := Run(Genesis, [CallRegister(a), CallRegister(b)], hashing);
              && s.stage == Commit(Zero)
              && s.roster == [Slot(a, None, None), Slot(b, None, None)]
              && Register(s, c) == Err(WrongStage)
  {
    var s1 := Step(Genesis, CallRegister(a), hashing);
    assert s1.roster == [Slot(a, None, None)];
    if a != b {
      var s2 := Step(s1, CallRegister(b), hashing);
      assert s2.roster == [Slot(a, None, None), Slot(b, None, None)];
      RunTrace([Genesis, s1, s2], [CallRegister(a), CallRegister(b)], hashing);
    }
  }

  /** A run visits the given states when each call takes each state to the next one. */
  lemma {:induction false} RunTrace(states: seq<State>, calls: seq<Call>, hashing: Hashing)
    requires |states| == |calls| + 1
    requires forall i :: 0 <= i < |calls| ==> Step(states[i], calls[i], hashing) == states[i + 1]
    ensures Run(states[0], calls, hashing) == states[|calls|]
    decreases |calls|
  {
    if |calls| > 0 {
      assert Step(states[0], calls[0], hashing) == states[1];
      RunTrace(states[1..], calls[1..], hashing);
    }
  }

  const Nonce1: U128 := 719836158792659817324695
  const Nonce2: U128 := 4501394651647051645007136

  /** Two distinct players commit and reveal honestly: the calls of a complete game. */
  function HonestCalls(a: AccountId, ma: Move, na: U128, b: AccountId, mb: Move, nb: U128, hashing: Hashing)
    : seq<Call>
  {
    [ CallRegister(a), CallRegister(b),
      CallCommit(a, hashing(ma, na)), CallCommit(b, hashing(mb, nb)),
      CallReveal(a, ma, na), CallReveal(b, mb, nb) ]
  }

  /** The stored states such a game goes through. */
  function HonestStates(a: AccountId, ma: Move, na: U128, b: AccountId, mb: Move, nb: U128, hashing: Hashing)
    : seq<State>
  {
    var ha, hb := hashing(ma, na), hashing(mb, nb);
    [ Genesis,
      State(WaitingForPlayers(One), [Slot(a, None, None)]),
      State(Commit(Zero), [Slot(a, None, None), Slot(b, None, None)]),
      State(Commit(One), [Slot(a, Some(ha), None), Slot(b, None, None)]),
      State(Reveal(Zero), [Slot(a, Some(ha), None), Slot(b, Some(hb), None)]),
      State(Reveal(One), [Slot(a, Some(ha), Some(ma)), Slot(b, Some(hb), None)]),
      State(Final, [Slot(a, Some(ha), Some(ma)), Slot(b, Some(hb), Some(mb))]) ]
  }

  /** Each call of an honest game takes each of these states to the next. */
  lemma HonestRegisterSteps(a: AccountId, ma: Move, na: U128, b: AccountId, mb: Move, nb: U128, hashing: Hashing)
    requires a != b
    ensures var calls, states := HonestCalls(a, ma, na, b, mb, nb, hashing), HonestStates(a, ma, na, b, mb, nb, hashing);
            && Step(states[0], calls[0], hashing) == states[1]
            && Step(states[1], calls[1], hashing) == states[2]
  {
    var x, y := Slot(a, None, None), Slot(b, None, None);
    assert ForcePush([], x) == [x];
    assert ForcePush([x], y) == [x, y];
  }

  lemma HonestCommitFirst(a: AccountId, ma: Move, na: U128, b: AccountId, mb: Move, nb: U128, hashing: Hashing)
    requires a != b
    ensures var calls, states := HonestCalls(a, ma, na, b, mb, nb, hashing), HonestStates(a, ma, na, b, mb, nb, hashing);
            Step(states[2], calls[2], hashing) == states[3]
  {
    CommitPair(Commit(Zero), Slot(a, None, None), Slot(b, None, None), hashing(ma, na));
  }

  lemma HonestCommitSecond(a: AccountId, ma: Move, na: U128, b: AccountId, mb: Move, nb: U128, hashing: Hashing)
    requires a != b
    ensures var calls, states := HonestCalls(a, ma, na, b, mb, nb, hashing), HonestStates(a, ma, na, b, mb, nb, hashing);
            Step(states[3], calls[3], hashing) == states[4]
  {
    CommitPair(Commit(One), Slot(a, Some(hashing(ma, na)), None), Slot(b, None, None), hashing(mb, nb));
  }

  lemma HonestRevealFirst(a: AccountId, ma: Move, na: U128, b: AccountId, mb: Move, nb: U128, hashing: Hashing)
    requires a != b
    ensures var calls, states := HonestCalls(a, ma, na, b, mb, nb, hashing), HonestStates(a, ma, na, b, mb, nb, hashing);
            Step(states[4], calls[4], hashing) == states[5]
  {
    var ha, hb := hashing(ma, na), hashing(mb, nb);
    RevealPair(Reveal(Zero), Slot(a, Some(ha), None), Slot(b, Some(hb), None), ma, na, hashing);
  }

  lemma HonestRevealSecond(a: AccountId, ma: Move, na: U128, b: AccountId, mb: Move, nb: U128, hashing: Hashing)
    requires a != b
    ensures var calls, states := HonestCalls(a, ma, na, b, mb, nb, hashing), HonestStates(a, ma, na, b, mb, nb, hashing);
            Step(states[5], calls[5], hashing) == states[6]
  {
    var ha, hb := hashing(ma, na), hashing(mb, nb);
    RevealPair(Reveal(One), Slot(a, Some(ha), Some(ma)), Slot(b, Some(hb), None), mb, nb, hashing);
  }

  lemma HonestStep(a: AccountId, ma: Move, na: U128, b: AccountId, mb: Move, nb: U128, hashing: Hashing, i: nat)
    requires a != b && i < 6
    ensures var calls, states := HonestCalls(a, ma, na, b, mb, nb, hashing), HonestStates(a, ma, na, b, mb, nb, hashing);
            Step(states[i], calls[i], hashing) == states[i + 1]
  {
    if i < 2 {
      HonestRegisterSteps(a, ma, na, b, mb, nb, hashing);
    } else if i == 2 {
      HonestCommitFirst(a, ma, na, b, mb, nb, hashing);
    } else if i == 3 {
      HonestCommitSecond(a, ma, na, b, mb, nb, hashing);
    } else if i == 4 {
      HonestRevealFirst(a, ma, na, b, mb, nb, hashing);
    } else {
      HonestRevealSecond(a, ma, na, b, mb, nb, hashing);
    }
  }

  /** Any complete honest game between two distinct accounts ends in the terminal stage
      with both commitments and both moves stored. */
  lemma HonestGame(a: AccountId, ma: Move, na: U128, b: AccountId, mb: Move, nb: U128, hashing: Hashing)
    requires a != b
    ensures Run(Genesis, HonestCalls(a, ma, na, b, mb, nb, hashing), hashing)
            == State(Final, [Slot(a, Some(hashing(ma, na)), Some(ma)), Slot(b, Some(hashing(mb, nb)), Some(mb))])
  {
    var calls, states := HonestCalls(a, ma, na, b, mb, nb, hashing), HonestStates(a, ma, na, b, mb, nb, hashing);
    forall i | 0 <= i < |calls|
      ensures Step(states[i], calls[i], hashing) == states[i + 1]
    {
      HonestStep(a, ma, na, b, mb, nb, hashing, i);
    }
    RunTrace(states, calls, hashing);
  }

  /** Finishing such a game announces the first player when its move beats the
      second's, the second player in the mirrored case, and no winner on equal moves. */
  lemma HonestGameWinner(a: AccountId, ma: Move, na: U128, b: AccountId, mb: Move, nb: U128, hashing: Hashing)
    requires a != b
    ensures var s := Run(Genesis, HonestCalls(a, ma, na, b, mb, nb, hashing), hashing);
            FinishGame(s) == Ok(Effect(s, Finished(if Beats(ma, mb) then Some(a)
                                                   else if Beats(mb, ma) then Some(b)
                                                   else None)))
  {
    HonestGame(a, ma, na, b, mb, nb, hashing);
  }

  /** The states the pallet's own test goes through: accounts 1 and 2 play, player 1
      commits to paper and player 2 to rock. */
  function TestStates(hashing: Hashing): seq<State>
  {
    HonestStates(1, Paper, Nonce1, 2, Rock, Nonce2, hashing)
  }

  /** The pallet's test, registrations: accounts 1 and 2 register in turn. */
  lemma PalletTestRegister(hashing: Hashing)
    ensures var states := TestStates(hashing);
            && Register(states[0], 1) == Ok(Effect(states[1], Registered(1)))
            && Register(states[1], 2) == Ok(Effect(states[2], Registered(2)))
  {
    var x, y := Slot(1, None, None), Slot(2, None, None);
    assert ForcePush([], x) == [x];
    assert ForcePush([x], y) == [x, y];
  }

  /** The pallet's test, first commit: the outsider, account 3, is refused; player 1's
      commitment lands in its own slot and moves the stage to `Commit(One)`. */
  lemma PalletTestCommitFirst(hashing: Hashing)
    ensures var h1 := hashing(Paper, Nonce1);
            var states := TestStates(hashing);
            && CommitHash(states[2], 3, h1) == Err(NotAPlayer)
            && CommitHash(states[2], 1, h1) == Ok(Effect(states[3], Committed(1, h1)))
            && states[3].stage == Commit(One)
  {
    assert !IsPlayer([Slot(1, None, None), Slot(2, None, None)], 3);
    CommitPair(Commit(Zero), Slot(1, None, None), Slot(2, None, None), hashing(Paper, Nonce1));
  }

  /** The pallet's test, second commit: both slots hold their owner's hash and no move,
      and the stage is `Reveal(Zero)`. */
  lemma PalletTestCommitSecond(hashing: Hashing)
    ensures var h1, h2 := hashing(Paper, Nonce1), hashing(Rock, Nonce2);
            var states := TestStates(hashing);
            && CommitHash(states[3], 2, h2) == Ok(Effect(states[4], Committed(2, h2)))
            && states[4].roster == [Slot(1, Some(h1), None), Slot(2, Some(h2), None)]
            && states[4].stage == Reveal(Zero)
  {
    var h1, h2 := hashing(Paper, Nonce1), hashing(Rock, Nonce2);
    CommitPair(Commit(One), Slot(1, Some(h1), None), Slot(2, None, None), h2);
  }

  /** The pallet's test, outsider reveal: account 3 is refused. */
  lemma PalletTestRevealOutsider(hashing: Hashing)
    ensures var states := TestStates(hashing);
            RevealMove(states[4], 3, Paper, 0, hashing) == Err(NotAPlayer)
  {
    var h1, h2 := hashing(Paper, Nonce1), hashing(Rock, Nonce2);
    assert !IsPlayer([Slot(1, Some(h1), None), Slot(2, Some(h2), None)], 3);
  }

  /** The pallet's test, first reveal: player 1 reveals paper with its nonce. */
  lemma PalletTestRevealFirst(hashing: Hashing)
    ensures var states := TestStates(hashing);
            RevealMove(states[4], 1, Paper, Nonce1, hashing) == Ok(Effect(states[5], Revealed(1, Paper)))
  {
    var h1, h2 := hashing(Paper, Nonce1), hashing(Rock, Nonce2);
    RevealPair(Reveal(Zero), Slot(1, Some(h1), None), Slot(2, Some(h2), None), Paper, Nonce1, hashing);
  }

  /** The pallet's test, second reveal: player 2 cannot reveal with player 1's move and
      nonce, then reveals its own and the game reaches the terminal stage. The hash
      function is arbitrary except that the two commitments differ, which a
      collision-resistant hash provides. */
  lemma PalletTestRevealSecond(hashing: Hashing)
    requires hashing(Paper, Nonce1) != hashing(Rock, Nonce2)
    ensures var states := TestStates(hashing);
            && RevealMove(states[5], 2, Paper, Nonce1, hashing) == Err(HashMismatch)
            && RevealMove(states[5], 2, Rock, Nonce2, hashing) == Ok(Effect(states[6], Revealed(2, Rock)))
            && states[6].stage == Final
  {
    var h1, h2 := hashing(Paper, Nonce1), hashing(Rock, Nonce2);
    var x, y := Slot(1, Some(h1), Some(Paper)), Slot(2, Some(h2), None);
    RevealPair(Reveal(One), x, y, Paper, Nonce1, hashing);
    RevealPair(Reveal(One), x, y, Rock, Nonce2, hashing);
  }

  /** The pallet's test, finish: account 1 wins, paper beating rock. */
  lemma PalletTestFinish(hashing: Hashing)
    ensures var states := TestStates(hashing);
            FinishGame(states[6]) == Ok(Effect(states[6], Finished(Some(1))))
  {
  }

  /** Both players reveal scissors: the game ends in a tie. */
  lemma TieGame(a: AccountId, na: U128, b: AccountId, nb: U128, hashing: Hashing)
    requires a != b
    ensures var s := Run(Genesis, HonestCalls(a, Scissors, na, b, Scissors, nb, hashing), hashing);
            s.stage == Final && FinishGame(s) == Ok(Effect(s, Finished(None)))
  {
    HonestGame(a, Scissors, na, b, Scissors, nb, hashing);
    HonestGameWinner(a, Scissors, na, b, Scissors, nb, hashing);
  }
}

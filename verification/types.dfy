/** Vocabulary of the rock-paper-scissors game: stages, moves and player slots,
    and the forward-only stage machine. */
module Types {

  /** The conventional Some/None datatype, used for the not-yet-set parts of a slot. */
  datatype Option<+T> = None | Some(value: T)

  /** How many players have completed the action of the current stage. */
  datatype Count = Zero | One

  function CountValue(c: Count): (n: nat)
    ensures n <= 1
    ensures n == 0 <==> c == Zero
  {
    match c
    case Zero => 0
    case One => 1
  }

  /** Stage of the single game: registration, commitment and reveal phases, each with
      its sub-count, and the terminal stage. */
  datatype Stage =
    | WaitingForPlayers(count: Count)
    | Commit(count: Count)
    | Reveal(count: Count)
    | Final

  /** The three moves; no other value exists. */
  datatype Move = Rock | Paper | Scissors

  /** Accounts and digests are opaque identities; only their equality matters. */
  type AccountId = nat
  type Hash = nat

  const U128_BOUND: int := 0x1_0000_0000_0000_0000_0000_0000_0000_0000

  /** The nonce of a reveal is an unsigned 128-bit integer. */
  type U128 = n: int | 0 <= n < U128_BOUND

  /** A player's slot: the account, its commitment once made and its move once revealed. */
  datatype Slot = Slot(account: AccountId, commitment: Option<Hash>, revealed: Option<Move>)

  /** The fixed progression of stages a game goes through, in order. */
  const Progression: seq<Stage> :=
    [ WaitingForPlayers(Zero), WaitingForPlayers(One), Commit(Zero), Commit(One),
      Reveal(Zero), Reveal(One), Final ]

  /** Position of a stage in the progression. */
  function Rank(s: Stage): (k: nat)
    ensures k < |Progression| && Progression[k] == s
    ensures k == |Progression| - 1 <==> s == Final
  {
    match s
    case WaitingForPlayers(c) => CountValue(c)
    case Commit(c) => 2 + CountValue(c)
    case Reveal(c) => 4 + CountValue(c)
    case Final => 6
  }

  /** The stage a fresh game starts in. */
  function DefaultStage(): (s: Stage)
    ensures s == Progression[0]
    ensures forall t: Stage :: Rank(s) <= Rank(t)
  {
    WaitingForPlayers(Zero)
  }

  /** Successor stage: every stage but the last moves one step along the progression,
      and the terminal stage is absorbing. */
  function Next(s: Stage): (t: Stage)
    ensures s != Final ==> Rank(t) == Rank(s) + 1
    ensures s == Final ==> t == Final
  {
    match s
    case WaitingForPlayers(Zero) => WaitingForPlayers(One)
    case WaitingForPlayers(One) => Commit(Zero)
    case Commit(Zero) => Commit(One)
    case Commit(One) => Reveal(Zero)
    case Reveal(Zero) => Reveal(One)
    case Reveal(One) => Final
    case Final => Final
  }

  /** Two stages at the same position are the same stage: the progression lists
      every stage exactly once. */
  lemma RankInjective(s: Stage, t: Stage)
    ensures Rank(s) == Rank(t) <==> s == t
  {
  }

  /** `Next` walks the progression one entry at a time and stays on its last entry. */
  lemma NextFollowsProgression(i: nat)
    requires i < |Progression|
    ensures i + 1 < |Progression| ==> Next(Progression[i]) == Progression[i + 1]
    ensures i + 1 == |Progression| ==> Next(Progression[i]) == Progression[i]
  {
    assert Rank(Progression[i]) == i;
  }

  /** The terminal stage is a fixed point, so advancing it again changes nothing. */
  lemma FinalAbsorbing(s: Stage)
    ensures Next(s) == s <==> s == Final
  {
  }

  function Min(a: int, b: int): int
  {
    if a <= b then a else b
  }

  /** `k` successive applications of `Next`. */
  function Iterate(s: Stage, k: nat): Stage
    decreases k
  {
    if k == 0 then s else Iterate(Next(s), k - 1)
  }

  /** Advancing `k` times moves `k` positions along the progression, saturating at the end. */
  lemma {:induction false} IterateRank(s: Stage, k: nat)
    ensures Rank(Iterate(s, k)) == Min(Rank(s) + k, |Progression| - 1)
    decreases k
  {
    if k > 0 {
      IterateRank(Next(s), k - 1);
    }
  }

  /** Six steps take the default stage to the terminal stage, and fewer never do. */
  lemma FromDefaultToFinal(k: nat)
    ensures Iterate(DefaultStage(), k) == Final <==> k >= 6
  {
    IterateRank(DefaultStage(), k);
  }

  const AllMoves: set<Move> := {Rock, Paper, Scissors}

  /** The move set has exactly three elements and every move is one of them. */
  lemma ThreeMoves(m: Move)
    ensures m in AllMoves
    ensures |AllMoves| == 3
  {
  }
}

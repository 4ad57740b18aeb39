# Rock-paper-scissors pallet: commit-reveal game in Dafny

This project models the game logic of the `piedra-papel-tijera` pallet. Two accounts
play one round of rock-paper-scissors. Each first registers, then commits to the hash
of its move and a secret 128-bit nonce, then reveals the move and nonce, which must
hash to the stored commitment. A final call reads both moves and announces the winner.

The persisted state is a stage (`Etapa`) plus a roster (`Jugadores`) of at most two
slots `(account, optional hash, optional move)`. Every dispatchable checks everything
on a local copy and writes storage only after all checks pass. So each call is modelled
as a pure function from the state to an outcome:

- `Ok(Effect(new state, event))` on success;
- `Err(error)` on a declared error, with storage left as it was;
- `Panic` where an `expect` of the source would find its value absent.

`Step` and `Run` execute calls one after the other, as the host serialises them.

Names: the Dafny model uses English names for the source's Spanish ones.

| source | model |
|---|---|
| `Etapa::{EsperandoJugadores, Commit, Reveal, Fin}` | `Stage.{WaitingForPlayers, Commit, Reveal, Final}` |
| `CantidadDeJugadores::{Cero, Uno}` | `Count.{Zero, One}` |
| `Jugada::{Piedra, Papel, Tijera}` | `Move.{Rock, Paper, Scissors}` |
| `Jugador<T>` | `Slot` |
| `YaRegistrado`, `JuegoLleno`, `EtapaIncorrecta` | `AlreadyRegistered`, `GameFull`, `WrongStage` |
| `YaComprometido`, `NoEsJugador`, `YaRevelado`, `HashIncorrecto` | `AlreadyCommitted`, `NotAPlayer`, `AlreadyRevealed`, `HashMismatch` |
| `Registrado`, `Comprometido`, `Revelado`, `Fin` (events) | `Registered`, `Committed`, `Revealed`, `Finished` |
| `registrar`, `commit`, `reveal`, `finalizar_juego` | `Register`, `CommitHash`, `RevealMove`, `FinishGame` |

Files:

- `types.dfy` (module `Types`): stages, moves, slots and the stage machine.
- `pallet.dfy` (module `Pallet`): errors, events, the four calls, the winner table and call dispatch.
- `invariant.dfy` (module `GameInvariant`): the reachable-state invariant and why the `expect`s never panic.
- `scenario.dfy` (module `Scenario`): complete games, including the pallet's own test.

The hash of `encode(move) ++ encode(nonce)` is a parameter `hashing: (Move, U128) -> Hash`.
Every result holds for every such function. The only assumption made about it is in
`Scenario.PalletTestRevealSecond`, which requires, as its precondition, that the two
commitments of the test differ.

Two behaviours of the code are reproduced as written:

- `registrar` compares the caller only with the first slot, never raises `JuegoLleno`,
  and has no capacity check of its own. A third registration fails with
  `EtapaIncorrecta`, because after two registrations the stage is already `Commit(Cero)`.
- `finalizar_juego` reads the first and the *last* slot of the roster, as the code does.

## Model

| member | source | states |
|---|---|---|
| Types.Rank | substrate-node-template/pallets/piedra-papel-tijera/src/tipos.rs:11-16 | every stage is an entry of the seven-stage progression, and `Fin` is its last entry |
| Types.DefaultStage | substrate-node-template/pallets/piedra-papel-tijera/src/tipos.rs:30-34 | the default stage is the first entry of the progression, and no stage comes before it |
| Types.Next | substrate-node-template/pallets/piedra-papel-tijera/src/tipos.rs:36-50 | every stage except `Fin` moves exactly one position forward; `Fin` goes to `Fin` |
| Types.RankInjective | substrate-node-template/pallets/piedra-papel-tijera/src/tipos.rs:11-16 | two stages at the same position are equal, so there are exactly seven stages |
| Types.NextFollowsProgression | substrate-node-template/pallets/piedra-papel-tijera/src/tipos.rs:41-49 | `next` goes EsperandoJugadores(Cero), EsperandoJugadores(Uno), Commit(Cero), Commit(Uno), Reveal(Cero), Reveal(Uno), Fin, then stays on Fin |
| Types.FinalAbsorbing | substrate-node-template/pallets/piedra-papel-tijera/src/tipos.rs:48 | `next` leaves a stage unchanged exactly when it is `Fin` |
| Types.IterateRank | substrate-node-template/pallets/piedra-papel-tijera/src/tipos.rs:41-49 | k applications of `next` move k positions forward, stopping at `Fin` |
| Types.FromDefaultToFinal | substrate-node-template/pallets/piedra-papel-tijera/src/tipos.rs:30-49 | from the default stage, k applications of `next` reach `Fin` exactly when k >= 6 |
| Types.ThreeMoves | substrate-node-template/pallets/piedra-papel-tijera/src/tipos.rs:19-23 | every move is rock, paper or scissors, and these three are distinct |
| Pallet.ForcePush | substrate-node-template/pallets/piedra-papel-tijera/src/lib.rs:116 | below capacity, the push appends the slot; at capacity, the second slot is replaced |
| Pallet.Register | substrate-node-template/pallets/piedra-papel-tijera/src/lib.rs:103-126 | outside EsperandoJugadores: EtapaIncorrecta. The account in the first slot: YaRegistrado. Otherwise: success that, below capacity, appends `(quien, None, None)`, advances the stage and emits `Registrado`. Never panics |
| Pallet.Scan | substrate-node-template/pallets/piedra-papel-tijera/src/lib.rs:139-147 | the slot loop succeeds iff every slot of the caller passes the check. It then changes exactly those slots and reports whether the caller owns a slot. Otherwise it fails as the first of the caller's slots that fails the check |
| Pallet.CheckCommit | substrate-node-template/pallets/piedra-papel-tijera/src/lib.rs:140-145 | a slot with a commitment is refused with YaComprometido; otherwise the hash is stored and nothing else changes |
| Pallet.CommitHash | substrate-node-template/pallets/piedra-papel-tijera/src/lib.rs:130-157 | outside Commit: EtapaIncorrecta. Non-player: NoEsJugador. Already committed: YaComprometido. Otherwise succeeds, storing the hash only in the caller's slot, advancing the stage and emitting `Comprometido`. Never panics |
| Pallet.CheckReveal | substrate-node-template/pallets/piedra-papel-tijera/src/lib.rs:169-181 | a second reveal is refused with YaRevelado; a missing commitment panics; a hash differing from the commitment is refused with HashIncorrecto; otherwise the move is recorded |
| Pallet.RevealMove | substrate-node-template/pallets/piedra-papel-tijera/src/lib.rs:161-194 | outside Reveal: EtapaIncorrecta. Non-player: NoEsJugador. Otherwise the first of the caller's slots that fails decides: YaRevelado, panic, or HashIncorrecto. Succeeds iff H(move, nonce) equals the caller's commitment and it has not revealed; then the move is stored only in the caller's slot, the stage advances and `Revelado` is emitted |
| Pallet.LaterSlotDecides | substrate-node-template/pallets/piedra-papel-tijera/src/lib.rs:168-183 | when the caller owns two slots and only the second has already revealed, reveal fails with YaRevelado from the second slot |
| Pallet.Resolve | substrate-node-template/pallets/piedra-papel-tijera/src/lib.rs:208-214 | the first player wins iff its move beats the second's (paper > rock > scissors > paper); the second wins in the mirrored case; equal moves give no winner |
| Pallet.ResolveTable | substrate-node-template/pallets/piedra-papel-tijera/src/lib.rs:210-213 | of the nine ordered pairs, exactly (Papel,Piedra), (Piedra,Tijera), (Tijera,Papel) give the first player, the three mirrored ones the second, and the three equal pairs a tie |
| Pallet.FinishGame | substrate-node-template/pallets/piedra-papel-tijera/src/lib.rs:198-219 | outside Fin: EtapaIncorrecta. It panics iff the roster is empty or the first or last slot has no move. It never writes state. With two revealed slots it announces the winner given by the cyclic dominance rule |
| Pallet.WrongStageRejected | substrate-node-template/pallets/piedra-papel-tijera/src/lib.rs:105-106 | each of the four calls made outside its stage fails with EtapaIncorrecta and leaves stage and roster unchanged |
| Pallet.SuccessAdvances | substrate-node-template/pallets/piedra-papel-tijera/src/lib.rs:150-152 | a successful registrar, commit or reveal advances the stage by exactly one position; a successful finish changes nothing |
| GameInvariant.GenesisInv | substrate-node-template/pallets/piedra-papel-tijera/src/lib.rs:55-59 | the default storage (EsperandoJugadores(Cero), empty roster) satisfies the invariant |
| GameInvariant.InvGuarantees | substrate-node-template/pallets/piedra-papel-tijera/src/lib.rs:203-206 | under the invariant the roster has at most two distinct accounts and is never full while waiting for players. In Reveal every slot holds a commitment. In Fin there are two slots, each with a move |
| GameInvariant.CommitAt | substrate-node-template/pallets/piedra-papel-tijera/src/lib.rs:139-148 | with distinct accounts, the owner of slot k gets YaComprometido if it already committed. Otherwise slot k alone gets the hash and the stage advances |
| GameInvariant.RevealAt | substrate-node-template/pallets/piedra-papel-tijera/src/lib.rs:168-185 | with distinct accounts, the owner of slot k gets YaRevelado after a first reveal. With no commitment the call panics. With H(move, nonce) different from the commitment it gets HashIncorrecto. Otherwise slot k alone gets the move and the stage advances |
| GameInvariant.RegisterPreserves | substrate-node-template/pallets/piedra-papel-tijera/src/lib.rs:110-121 | a successful registration keeps the invariant |
| GameInvariant.CommitPreserves | substrate-node-template/pallets/piedra-papel-tijera/src/lib.rs:139-152 | a successful commit keeps the invariant: the Commit sub-count stays equal to the number of commitments, and the second commitment leads to Reveal(Cero) |
| GameInvariant.RevealPreserves | substrate-node-template/pallets/piedra-papel-tijera/src/lib.rs:168-189 | a successful reveal keeps the invariant: the Reveal sub-count stays equal to the number of revealed moves, and the second reveal leads to Fin |
| GameInvariant.StepPreserves | substrate-node-template/pallets/piedra-papel-tijera/src/lib.rs:103-219 | every call, successful or failed, keeps the invariant |
| GameInvariant.RunPreserves | substrate-node-template/pallets/piedra-papel-tijera/src/lib.rs:103-219 | any sequence of calls keeps the invariant |
| GameInvariant.ReachableInv | substrate-node-template/pallets/piedra-papel-tijera/src/lib.rs:55-59 | every state reached from the default storage by any sequence of calls satisfies the invariant |
| GameInvariant.NoPanic | substrate-node-template/pallets/piedra-papel-tijera/src/lib.rs:177 | under the invariant no call panics: the commitment `expect` in reveal and the four `expect`s in finalizar_juego always find their values |
| GameInvariant.ReachableNoPanic | substrate-node-template/pallets/piedra-papel-tijera/src/lib.rs:203-206 | no call panics in any state reachable from the default storage |
| GameInvariant.RegisterOnReachable | substrate-node-template/pallets/piedra-papel-tijera/src/lib.rs:110-116 | on reachable states, comparing with the first slot rejects every duplicate registration. The push never truncates. With two players, a further registrar fails with EtapaIncorrecta |
| GameInvariant.GameFullNeverRaised | substrate-node-template/pallets/piedra-papel-tijera/src/lib.rs:82 | no call raises JuegoLleno, in any state |
| GameInvariant.FinishIdempotent | substrate-node-template/pallets/piedra-papel-tijera/src/lib.rs:198-219 | finalizar_juego stores nothing, so calling it again gives the same outcome |
| GameInvariant.StepKeepsRevealsBound | substrate-node-template/pallets/piedra-papel-tijera/src/lib.rs:172-180 | every call keeps the following true: each revealed move has a nonce that hashes it to its slot's commitment |
| GameInvariant.ReachableRevealsBound | substrate-node-template/pallets/piedra-papel-tijera/src/lib.rs:172-180 | any sequence of calls keeps every revealed move bound to its commitment |
| Scenario.TwoRegistrations | substrate-node-template/pallets/piedra-papel-tijera/src/lib.rs:103-126 | the same account registering twice gets YaRegistrado. Two different accounts reach Commit(Cero) with two empty slots, and a third registrar fails with EtapaIncorrecta |
| Scenario.HonestGame | substrate-node-template/pallets/piedra-papel-tijera/src/lib.rs:103-194 | any two distinct accounts that register, commit and reveal honestly reach Fin, with both hashes and both moves stored |
| Scenario.HonestGameWinner | substrate-node-template/pallets/piedra-papel-tijera/src/lib.rs:208-216 | finishing such a game announces the player whose move beats the other's, or no winner on equal moves |
| Scenario.PalletTestRegister | substrate-node-template/pallets/piedra-papel-tijera/src/tests.rs:17-18 | accounts 1 and 2 register successfully |
| Scenario.PalletTestCommitFirst | substrate-node-template/pallets/piedra-papel-tijera/src/tests.rs:25-28 | account 3 gets NoEsJugador; account 1 commits and the stage is Commit(Uno) |
| Scenario.PalletTestCommitSecond | substrate-node-template/pallets/piedra-papel-tijera/src/tests.rs:35-42 | account 2 commits; the roster is `[(1, Some(h1), None), (2, Some(h2), None)]` and the stage is Reveal(Cero) |
| Scenario.PalletTestRevealOutsider | substrate-node-template/pallets/piedra-papel-tijera/src/tests.rs:44-47 | account 3's reveal gets NoEsJugador |
| Scenario.PalletTestRevealFirst | substrate-node-template/pallets/piedra-papel-tijera/src/tests.rs:49 | account 1 reveals paper with its nonce |
| Scenario.PalletTestRevealSecond | substrate-node-template/pallets/piedra-papel-tijera/src/tests.rs:50-53 | account 2 revealing account 1's move and nonce gets HashIncorrecto. It then reveals rock with its own nonce and the stage is Fin |
| Scenario.PalletTestFinish | substrate-node-template/pallets/piedra-papel-tijera/src/tests.rs:55-56 | finalizar_juego emits `Fin { ganador: Some(1) }` |
| Scenario.TieGame | substrate-node-template/pallets/piedra-papel-tijera/src/lib.rs:213 | two players who both reveal scissors reach Fin, and finishing announces no winner |

## Left out

- Origin handling: `ensure_signed` and its `BadOrigin` error are not modelled. The caller is an already-authenticated account parameter. `finalizar_juego` ignores its origin, and so does `CallFinish`.
- Configuration and host plumbing are not modelled, because the game logic never uses them: `Currency`, `PalletId`, `TokensParaJugar`, `WeightInfo`, call weights and `account_id`.
- Concrete hashing and encoding are not modelled. `Hashing::hash_of` and the SCALE encoding are one function parameter. Collision resistance is not assumed anywhere, except in the one scenario precondition named above.
- Event deposit is not modelled: the event is returned in the outcome.
- Storage reads and writes are not modelled: the state is passed in and returned.
- A panic is a `Panic` outcome that leaves storage unchanged. What the host does with a panicking extrinsic is outside this model.
- `BoundedVec::force_push` belongs to the `bounded-collections` library, outside the pallet. `ForcePush` follows that library's documented behaviour: truncate to capacity minus one, then push. `GameInvariant.RegisterOnReachable` shows that truncation never happens on reachable states.
- Accounts and digests are modelled as natural numbers, and only their equality is used.
- RevealMove: the contract does not exclude a panic in arbitrary states, because the source panics when a slot has no commitment. `GameInvariant.NoPanic` excludes the panic under the invariant.

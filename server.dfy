/**
 The round session manager of the Mines game: a map from player id to the
 player's balance and active round, and the four request handlers that read
 the balance, start a round, reveal a cell and cash out.

 Each handler is described twice: once as a function of the sessions, and
 once as a method of `MinesServer` that updates the `sessions` field step by
 step as the handler does, proved to agree with the function. The balance
 query is described by the registration `WithUser`; the other three by a
 function from the old sessions to the new sessions and the reply
 (`StartStep`, `PlayStep`, `CashoutStep`).
 */
module Server {
  import opened Engine

  /** Balance credited to a player id the first time it is seen. */
  const InitialBalance: real := 1000.0

  datatype Option<T> = None | Some(value: T)

  /** One round in progress. */
  datatype Game = Game(
    grid: seq<Cell>,
    revealed: seq<bool>,
    minesCount: nat,
    betAmount: real,
    currentMultiplier: real,
    diamondsFound: nat,
    isGameOver: bool)

  datatype User = User(balance: real, activeGame: Option<Game>)

  type Sessions = map<string, User>

  /** Why a request was turned away (the handlers answer these with status 400). */
  datatype Error = GameInProgress | InvalidBet | InsufficientBalance | NoActiveGame | AlreadyRevealed

  datatype Result<T> = Ok(value: T) | Err(error: Error)

  datatype StartReply = StartReply(balance: real, multiplier: real)

  datatype PlayReply = Boom(grid: seq<Cell>) | Safe(multiplier: real, potentialWin: real)

  datatype CashoutReply = CashoutReply(winAmount: real, balance: real, grid: seq<Cell>)

  // ---------------------------------------------------------------------------
  // Round state

  /** The board mask of a fresh round: nothing revealed. */
  function Hidden(): (r: seq<bool>)
    ensures |r| == TotalSpots && forall i :: 0 <= i < |r| ==> !r[i]
  {
    seq(TotalSpots, _ => false)
  }

  /** Number of cells that are both revealed and diamonds. */
  function RevealedDiamonds(grid: seq<Cell>, revealed: seq<bool>): (n: nat)
    requires |grid| == |revealed|
    ensures n <= Count(grid, Diamond)
  {
    if grid == [] then 0
    else (if revealed[0] && grid[0] == Diamond then 1 else 0) + RevealedDiamonds(grid[1..], revealed[1..])
  }

  /** Revealing a hidden diamond adds exactly one to the revealed diamonds. */
  lemma {:induction false} RevealDiamond(grid: seq<Cell>, revealed: seq<bool>, i: nat)
    requires |grid| == |revealed| && i < |grid| && !revealed[i] && grid[i] == Diamond
    ensures RevealedDiamonds(grid, revealed[i := true]) == RevealedDiamonds(grid, revealed) + 1
  {
    if i == 0 {
      assert revealed[i := true][1..] == revealed[1..];
    } else {
      assert revealed[i := true][1..] == revealed[1..][i - 1 := true];
      RevealDiamond(grid[1..], revealed[1..], i - 1);
    }
  }

  /** With nothing revealed no diamond is revealed. */
  lemma {:induction false} NoneRevealed(grid: seq<Cell>, revealed: seq<bool>)
    requires |grid| == |revealed| && forall i :: 0 <= i < |revealed| ==> !revealed[i]
    ensures RevealedDiamonds(grid, revealed) == 0
  {
    if grid != [] {
      assert forall i :: 0 <= i < |revealed| - 1 ==> revealed[1..][i] == revealed[i + 1];
      NoneRevealed(grid[1..], revealed[1..]);
    }
  }

  /**
   What holds of every stored round: a 25-cell board holding `minesCount`
   mines, a positive stake, no revealed mine, `diamondsFound` counting the
   revealed diamonds, and the multiplier equal to the product of the first
   `diamondsFound` payout factors.
   */
  predicate GameOk(g: Game) {
    && |g.grid| == TotalSpots
    && |g.revealed| == TotalSpots
    && Count(g.grid, Mine) == g.minesCount
    && g.betAmount > 0.0
    && !g.isGameOver
    && (forall i :: 0 <= i < TotalSpots && g.revealed[i] ==> g.grid[i] == Diamond)
    && g.diamondsFound == RevealedDiamonds(g.grid, g.revealed)
    && g.currentMultiplier == Accumulated(g.minesCount, g.diamondsFound)
  }

  predicate UserOk(u: User) {
    u.balance >= 0.0 && (u.activeGame.Some? ==> GameOk(u.activeGame.value))
  }

  predicate ValidSessions(s: Sessions) {
    forall id :: id in s ==> UserOk(s[id])
  }

  /** While a round is active, the revealed diamonds leave at least one safe cell per factor. */
  lemma DiamondsBound(g: Game)
    requires GameOk(g)
    ensures g.minesCount + g.diamondsFound <= TotalSpots
  {
    CountSplit(g.grid);
  }

  /** A hidden diamond means some safe cell is still unrevealed, so the next factor is positive. */
  lemma DiamondRoom(g: Game, index: Index)
    requires GameOk(g) && !g.revealed[index] && g.grid[index] == Diamond
    ensures g.minesCount + g.diamondsFound < TotalSpots
    ensures CalculateMultiplier(g.minesCount, g.diamondsFound) > 0.0
  {
    RevealDiamond(g.grid, g.revealed, index);
    CountSplit(g.grid);
  }

  // ---------------------------------------------------------------------------
  // Handlers as functions of the session map

  /** The sessions with `id` registered: an unknown id gets 1000.00 and no round. */
  function WithUser(s: Sessions, id: string): (s': Sessions)
    ensures id in s' && s'.Keys == s.Keys + {id}
    ensures forall other :: other in s ==> s'[other] == s[other]
    ensures id !in s ==> s'[id] == User(InitialBalance, None)
  {
    if id in s then s else s[id := User(InitialBalance, None)]
  }

  /**
   The own names of `Object.prototype`, which every plain JavaScript object
   inherits: looking one up in an object that has no such own entry still
   yields a truthy value.
   */
  const InheritedNames: set<string> := {
    "constructor", "__defineGetter__", "__defineSetter__", "hasOwnProperty",
    "__lookupGetter__", "__lookupSetter__", "isPrototypeOf", "propertyIsEnumerable",
    "toString", "valueOf", "__proto__", "toLocaleString"
  }

  /**
   Registration as the handlers write it against a plain-object store: an id
   naming an inherited member already looks present, so it is never
   registered, while every other unknown id gets 1000.00 and no round.
   */
  function WithUserAsWritten(s: Sessions, id: string): (s': Sessions)
    ensures id in s' <==> id in s || id !in InheritedNames
    ensures s.Keys <= s'.Keys <= s.Keys + {id}
    ensures forall other :: other in s ==> s'[other] == s[other]
    ensures id !in s && id !in InheritedNames ==> s'[id] == User(InitialBalance, None)
  {
    if id in s || id in InheritedNames then s else s[id := User(InitialBalance, None)]
  }

  /**
   On an empty store the id "constructor" stays unregistered as written,
   whereas `WithUser` registers it with 1000.00 like any other id.
   */
  lemma InheritedIdNotRegistered()
    ensures "constructor" !in WithUserAsWritten(map[], "constructor")
    ensures WithUser(map[], "constructor")["constructor"] == User(InitialBalance, None)
  {
  }

  /** What a stake returns at a given multiplier. */
  function Payout(betAmount: real, multiplier: real): real {
    betAmount * multiplier
  }

  /** The round a successful start installs. */
  function NewGame(grid: seq<Cell>, minesCount: nat, betAmount: real): Game {
    Game(grid, Hidden(), minesCount, betAmount, 1.0, 0, false)
  }

  /**
   The start handler: register the player, refuse if a round is active, the
   stake is not positive or exceeds the balance, otherwise debit the stake
   and install a fresh round on the board drawn from `samples`.
   */
  function StartStep(s: Sessions, id: string, betAmount: real, minesCount: nat, samples: seq<Index>)
    : (r: (Sessions, Result<StartReply>))
    ensures r.1.Err? ==> r.0 == WithUser(s, id)
  {
    var s1 := WithUser(s, id);
    var user := s1[id];
    if user.activeGame.Some? then (s1, Err(GameInProgress))
    else if betAmount <= 0.0 then (s1, Err(InvalidBet))
    else if user.balance < betAmount then (s1, Err(InsufficientBalance))
    else
      var game := NewGame(Placed(minesCount, samples).grid, minesCount, betAmount);
      var user' := User(user.balance - betAmount, Some(game));
      (s1[id := user'], Ok(StartReply(user'.balance, 1.0)))
  }

  /**
   The play handler: refuse without an active round or on a revealed cell;
   a mine ends the round and shows the board; a diamond counts one more
   diamond and moves the multiplier to the next accumulated value.
   */
  function PlayStep(s: Sessions, id: string, index: Index): (r: (Sessions, Result<PlayReply>))
    requires ValidSessions(s)
    ensures r.1.Err? ==> r.0 == s
    ensures r.0.Keys == s.Keys
    ensures r.1.Ok? && r.1.value.Safe? ==>
      id in s && s[id].activeGame.Some? && |s[id].activeGame.value.grid| == TotalSpots
      && s[id].activeGame.value.grid[index] == Diamond
  {
    if id !in s || s[id].activeGame.None? || s[id].activeGame.value.isGameOver then
      (s, Err(NoActiveGame))
    else
      var user := s[id];
      var game := user.activeGame.value;
      if game.revealed[index] then (s, Err(AlreadyRevealed))
      else if game.grid[index] == Mine then
        (s[id := User(user.balance, None)], Ok(Boom(game.grid)))
      else
        var found := game.diamondsFound + 1;
        var multiplier := Accumulated(game.minesCount, found);
        var game' := game.(revealed := game.revealed[index := true], diamondsFound := found,
                           currentMultiplier := multiplier);
        (s[id := User(user.balance, Some(game'))], Ok(Safe(multiplier, Payout(game.betAmount, multiplier))))
  }

  /** The cashout handler: credit stake times multiplier, end the round and show the board. */
  function CashoutStep(s: Sessions, id: string): (r: (Sessions, Result<CashoutReply>))
    ensures r.1.Err? <==> id !in s || s[id].activeGame.None?
    ensures r.1.Err? ==> r.0 == s
    ensures r.0.Keys == s.Keys
  {
    if id !in s || s[id].activeGame.None? then (s, Err(NoActiveGame))
    else
      var user := s[id];
      var game := user.activeGame.value;
      var winAmount := Payout(game.betAmount, game.currentMultiplier);
      var user' := User(user.balance + winAmount, None);
      (s[id := user'], Ok(CashoutReply(winAmount, user'.balance, game.grid)))
  }

  // ---------------------------------------------------------------------------
  // Start

  /** The guards of the start handler all pass, so it goes on to draw a board. */
  predicate StartProceeds(s: Sessions, id: string, betAmount: real) {
    var user := WithUser(s, id)[id];
    user.activeGame.None? && 0.0 < betAmount <= user.balance
  }

  /** A start succeeds exactly when no round is active and 0 < stake <= balance. */
  lemma StartAccepted(s: Sessions, id: string, betAmount: real, minesCount: nat, samples: seq<Index>)
    ensures var user := WithUser(s, id)[id];
      (StartStep(s, id, betAmount, minesCount, samples).1.Ok?
       <==> user.activeGame.None? && 0.0 < betAmount <= user.balance)
  {
  }

  /**
   A successful start debits exactly the stake, installs a fresh round on the
   drawn board and touches no other player.
   */
  lemma StartDebits(s: Sessions, id: string, betAmount: real, minesCount: nat, samples: seq<Index>)
    requires StartStep(s, id, betAmount, minesCount, samples).1.Ok?
    ensures var s' := StartStep(s, id, betAmount, minesCount, samples).0;
      var r := StartStep(s, id, betAmount, minesCount, samples).1;
      && s'.Keys == s.Keys + {id}
      && s'[id].balance == WithUser(s, id)[id].balance - betAmount
      && r.value == StartReply(s'[id].balance, 1.0)
      && s'[id].activeGame == Some(Game(Placed(minesCount, samples).grid, Hidden(), minesCount, betAmount, 1.0, 0, false))
      && forall other :: other in s && other != id ==> s'[other] == s[other]
  {
  }

  /**
   Starting a round keeps every stored round well formed, given draws that
   place all the mines whenever the guards let the board be drawn.
   */
  lemma StartPreservesValid(s: Sessions, id: string, betAmount: real, minesCount: nat, samples: seq<Index>)
    requires ValidSessions(s)
    requires StartProceeds(s, id, betAmount) ==> Supplies(minesCount, samples)
    ensures ValidSessions(StartStep(s, id, betAmount, minesCount, samples).0)
  {
    var s' := StartStep(s, id, betAmount, minesCount, samples).0;
    assert ValidSessions(WithUser(s, id));
    if StartStep(s, id, betAmount, minesCount, samples).1.Ok? {
      var grid := Placed(minesCount, samples).grid;
      PlacementCounts(minesCount, samples);
      NoneRevealed(grid, Hidden());
      assert GameOk(NewGame(grid, minesCount, betAmount));
      assert UserOk(s'[id]);
    }
  }

  // ---------------------------------------------------------------------------
  // Play

  /**
   A reveal is refused exactly when the player has no active round or the
   cell is already revealed.
   */
  lemma PlayAccepted(s: Sessions, id: string, index: Index)
    requires ValidSessions(s)
    ensures PlayStep(s, id, index).1.Err?
        <==> id !in s || s[id].activeGame.None? || s[id].activeGame.value.revealed[index]
  {
    if id in s && s[id].activeGame.Some? {
      assert UserOk(s[id]);
    }
  }

  /**
   The reveal guard as written on a JavaScript array: a read past the end is
   `undefined`, which is falsy, so such a cell never counts as revealed.
   */
  function RevealedAsWritten(revealed: seq<bool>, index: int): bool {
    0 <= index < |revealed| && revealed[index]
  }

  /**
   The bust test as written: `undefined === 'mine'` is false, so a cell past
   the end of the board never counts as a mine.
   */
  function MineAsWritten(grid: seq<Cell>, index: int): bool {
    0 <= index < |grid| && grid[index] == Mine
  }

  /**
   The play handler as written, for any integer index: both reads go through
   the JavaScript array semantics above, and the multiplier is updated
   incrementally as the handler does. An off-board write leaves the 25 cells
   as they are, and the entry JavaScript would create for it is not kept.
   */
  function PlayStepAsWritten(s: Sessions, id: string, index: int): (r: (Sessions, Result<PlayReply>))
    ensures r.1.Err? ==> r.0 == s
    ensures r.0.Keys == s.Keys
  {
    if id !in s || s[id].activeGame.None? || s[id].activeGame.value.isGameOver then
      (s, Err(NoActiveGame))
    else
      var user := s[id];
      var game := user.activeGame.value;
      if RevealedAsWritten(game.revealed, index) then (s, Err(AlreadyRevealed))
      else if MineAsWritten(game.grid, index) then
        (s[id := User(user.balance, None)], Ok(Boom(game.grid)))
      else
        var revealed := if 0 <= index < |game.revealed| then game.revealed[index := true] else game.revealed;
        var found := game.diamondsFound + 1;
        var multiplier := NextMultiplier(game.currentMultiplier, game.minesCount, found);
        var game' := game.(revealed := revealed, diamondsFound := found, currentMultiplier := multiplier);
        (s[id := User(user.balance, Some(game'))], Ok(Safe(multiplier, Payout(game.betAmount, multiplier))))
  }

  /**
   As written, an index off the board is accepted in every valid round and
   counted as a diamond although no cell is revealed: the reply is safe, the
   board and the mask are unchanged, the diamond count runs ahead of the
   revealed diamonds (so the sessions are no longer valid), and the
   multiplier moves on to the next accumulated value.
   */
  lemma OffBoardRevealIsSafe(s: Sessions, id: string, index: int)
    requires ValidSessions(s) && id in s && s[id].activeGame.Some?
    requires index < 0 || index >= TotalSpots
    ensures var g := s[id].activeGame.value;
      var r := PlayStepAsWritten(s, id, index);
      && r.1.Ok? && r.1.value.Safe?
      && r.0[id].balance == s[id].balance
      && r.0[id].activeGame.Some?
      && var g' := r.0[id].activeGame.value;
      && g'.grid == g.grid && g'.revealed == g.revealed
      && g'.diamondsFound == g.diamondsFound + 1
      && g'.diamondsFound != RevealedDiamonds(g'.grid, g'.revealed)
      && !ValidSessions(r.0)
      && g'.currentMultiplier == Accumulated(g.minesCount, g.diamondsFound + 1)
      && r.1.value.multiplier == g'.currentMultiplier
  {
    assert UserOk(s[id]);
  }

  /** On the 25 cells of the board the handler as written agrees with `PlayStep`. */
  lemma OnBoardAsWrittenAgrees(s: Sessions, id: string, index: Index)
    requires ValidSessions(s)
    ensures PlayStepAsWritten(s, id, index) == PlayStep(s, id, index)
  {
    if id in s && s[id].activeGame.Some? {
      assert UserOk(s[id]);
    }
  }

  /** On a mine the round is dropped, the full board is returned and the balance is kept. */
  lemma PlayMine(s: Sessions, id: string, index: Index)
    requires ValidSessions(s) && id in s && s[id].activeGame.Some?
    requires !s[id].activeGame.value.revealed[index] && s[id].activeGame.value.grid[index] == Mine
    ensures PlayStep(s, id, index) == (s[id := User(s[id].balance, None)], Ok(Boom(s[id].activeGame.value.grid)))
  {
  }

  /**
   On a hidden diamond exactly that cell becomes revealed, one more diamond is
   counted, board, stake and balance stay, and the multiplier is the old one
   times the (positive) payout factor for the diamonds found so far.
   */
  lemma PlayDiamond(s: Sessions, id: string, index: Index)
    requires ValidSessions(s) && id in s && s[id].activeGame.Some?
    requires !s[id].activeGame.value.revealed[index] && s[id].activeGame.value.grid[index] == Diamond
    ensures var g := s[id].activeGame.value;
      var s' := PlayStep(s, id, index).0;
      var r := PlayStep(s, id, index).1;
      && s'[id].balance == s[id].balance
      && s'[id].activeGame.Some?
      && var g' := s'[id].activeGame.value;
      && g'.revealed == g.revealed[index := true]
      && g'.diamondsFound == g.diamondsFound + 1
      && g'.grid == g.grid && g'.betAmount == g.betAmount && g'.minesCount == g.minesCount
      && CalculateMultiplier(g.minesCount, g.diamondsFound) > 0.0
      && g'.currentMultiplier == g.currentMultiplier * CalculateMultiplier(g.minesCount, g.diamondsFound)
      && r.Ok? && r.value.Safe? && r.value.multiplier == g'.currentMultiplier
      && r.value.potentialWin == Payout(g.betAmount, r.value.multiplier)
      && forall other :: other in s && other != id ==> s'[other] == s[other]
  {
    assert UserOk(s[id]);
    var g := s[id].activeGame.value;
    DiamondRoom(g, index);
    var m := Accumulated(g.minesCount, g.diamondsFound + 1);
    assert m == Mul(g.currentMultiplier, CalculateMultiplier(g.minesCount, g.diamondsFound));
    var g' := g.(revealed := g.revealed[index := true], diamondsFound := g.diamondsFound + 1, currentMultiplier := m);
    assert PlayStep(s, id, index) == (s[id := User(s[id].balance, Some(g'))], Ok(Safe(m, Payout(g.betAmount, m))));
  }

  /** Revealing a cell keeps every stored round well formed. */
  lemma PlayPreservesValid(s: Sessions, id: string, index: Index)
    requires ValidSessions(s)
    ensures ValidSessions(PlayStep(s, id, index).0)
  {
    var s' := PlayStep(s, id, index).0;
    var r := PlayStep(s, id, index).1;
    if r.Ok? && r.value.Safe? {
      var g := s[id].activeGame.value;
      RevealDiamond(g.grid, g.revealed, index);
      assert UserOk(s'[id]);
    }
  }

  /** After a bust neither another reveal nor a cashout is accepted. */
  lemma BustEndsRound(s: Sessions, id: string, index: Index, next: Index)
    requires ValidSessions(s) && PlayStep(s, id, index).1.Ok? && PlayStep(s, id, index).1.value.Boom?
    ensures var s' := PlayStep(s, id, index).0;
      && ValidSessions(s')
      && s'[id].balance == s[id].balance
      && PlayStep(s', id, next).1 == Err(NoActiveGame)
      && CashoutStep(s', id).1 == Err(NoActiveGame)
  {
    PlayPreservesValid(s, id, index);
  }

  /** With at least one mine every accepted reveal leaves the multiplier at 1 or more. */
  lemma SafeMultiplierAtLeastOne(s: Sessions, id: string, index: Index)
    requires ValidSessions(s)
    requires PlayStep(s, id, index).1.Ok? && PlayStep(s, id, index).1.value.Safe?
    requires s[id].activeGame.value.minesCount >= 1
    ensures PlayStep(s, id, index).1.value.multiplier >= 1.0
  {
    var g := s[id].activeGame.value;
    RevealDiamond(g.grid, g.revealed, index);
    CountSplit(g.grid);
    AccumulatedAtLeastOne(g.minesCount, g.diamondsFound + 1);
  }

  // ---------------------------------------------------------------------------
  // Cashout

  /** Cashout credits exactly stake times multiplier, clears the round and returns the board. */
  lemma CashoutCredits(s: Sessions, id: string)
    requires id in s && s[id].activeGame.Some?
    ensures var g := s[id].activeGame.value;
      var s' := CashoutStep(s, id).0;
      var r := CashoutStep(s, id).1;
      && s'[id].balance == s[id].balance + Payout(g.betAmount, g.currentMultiplier)
      && s'[id].activeGame.None?
      && r == Ok(CashoutReply(Payout(g.betAmount, g.currentMultiplier), s'[id].balance, g.grid))
      && forall other :: other in s && other != id ==> s'[other] == s[other]
  {
  }

  /** Cashing out keeps every stored round well formed and every balance non-negative. */
  lemma CashoutPreservesValid(s: Sessions, id: string)
    requires ValidSessions(s)
    ensures ValidSessions(CashoutStep(s, id).0)
  {
    if id in s && s[id].activeGame.Some? {
      var g := s[id].activeGame.value;
      NonNegativeProduct(g.betAmount, g.currentMultiplier);
    }
  }

  // Solver scaffolding: two real-arithmetic facts for the cashout lemmas.

  lemma NonNegativeProduct(x: real, y: real)
    requires x >= 0.0 && y >= 0.0
    ensures x * y >= 0.0
  {
  }

  lemma AtLeastStake(bet: real, m: real)
    requires bet > 0.0 && m >= 1.0
    ensures bet * m >= bet
  {
  }

  /** With at least one mine on the board a cashout never returns less than the stake. */
  lemma CashoutAtLeastStake(s: Sessions, id: string)
    requires ValidSessions(s) && id in s && s[id].activeGame.Some?
    requires s[id].activeGame.value.minesCount >= 1
    ensures CashoutStep(s, id).1.value.winAmount >= s[id].activeGame.value.betAmount
  {
    var g := s[id].activeGame.value;
    DiamondsBound(g);
    AccumulatedAtLeastOne(g.minesCount, g.diamondsFound);
    AtLeastStake(g.betAmount, g.currentMultiplier);
  }

  /** Cashing out right after a successful start gives back exactly the stake. */
  lemma StartThenCashout(s: Sessions, id: string, betAmount: real, minesCount: nat, samples: seq<Index>)
    requires StartStep(s, id, betAmount, minesCount, samples).1.Ok?
    ensures var s1 := StartStep(s, id, betAmount, minesCount, samples).0;
      var s2 := CashoutStep(s1, id).0;
      var r := CashoutStep(s1, id).1;
      && r.Ok? && r.value.winAmount == betAmount
      && s2 == WithUser(s, id)
  {
    var s1 := StartStep(s, id, betAmount, minesCount, samples).0;
    var s2 := CashoutStep(s1, id).0;
    assert s2[id] == WithUser(s, id)[id];
    assert s2 == WithUser(s, id);
  }

  // ---------------------------------------------------------------------------
  // The server object

  /** The in-memory server: the `sessions` map that the handlers update in place. */
  class MinesServer {
    var sessions: Sessions

    ghost predicate Valid()
      reads this
    {
      ValidSessions(sessions)
    }

    constructor ()
      ensures sessions == map[] && Valid()
    {
      sessions := map[];
    }

    /** The balance query; registers an unknown player with 1000.00. */
    method Me(id: string) returns (balance: real)
      requires Valid()
      modifies this
      ensures Valid()
      ensures sessions == WithUser(old(sessions), id) && balance == sessions[id].balance
    {
      if id !in sessions {
        sessions := sessions[id := User(InitialBalance, None)];
      }
      balance := sessions[id].balance;
    }

    /** The start handler; `samples` stands for the draws of the random source. */
    method Start(id: string, betAmount: real, minesCount: nat, samples: seq<Index>) returns (r: Result<StartReply>)
      requires Valid()
      requires StartProceeds(sessions, id, betAmount) ==> Supplies(minesCount, samples)
      modifies this
      ensures Valid()
      ensures (sessions, r) == StartStep(old(sessions), id, betAmount, minesCount, samples)
    {
      if id !in sessions {
        sessions := sessions[id := User(InitialBalance, None)];
      }
      assert sessions == WithUser(old(sessions), id);
      var user := sessions[id];
      if user.activeGame.Some? {
        r := Err(GameInProgress);
      } else if betAmount <= 0.0 {
        r := Err(InvalidBet);
      } else if user.balance < betAmount {
        r := Err(InsufficientBalance);
      } else {
        user := user.(balance := user.balance - betAmount);
        var grid, placed := CreateGrid(minesCount, samples);
        var game := Game(grid[..], Hidden(), minesCount, betAmount, 1.0, 0, false);
        assert game == NewGame(Placed(minesCount, samples).grid, minesCount, betAmount);
        user := user.(activeGame := Some(game));
        sessions := sessions[id := user];
        r := Ok(StartReply(user.balance, 1.0));
      }
      assert (sessions, r) == StartStep(old(sessions), id, betAmount, minesCount, samples);
      StartPreservesValid(old(sessions), id, betAmount, minesCount, samples);
    }

    /** The play handler: reveal cell `index`. */
    method Play(id: string, index: Index) returns (r: Result<PlayReply>)
      requires Valid()
      modifies this
      ensures Valid()
      ensures (sessions, r) == PlayStep(old(sessions), id, index)
    {
      PlayPreservesValid(sessions, id, index);
      if id !in sessions || sessions[id].activeGame.None? || sessions[id].activeGame.value.isGameOver {
        return Err(NoActiveGame);
      }
      var user := sessions[id];
      var game := user.activeGame.value;
      if game.revealed[index] {
        return Err(AlreadyRevealed);
      }
      game := game.(revealed := game.revealed[index := true]);
      if game.grid[index] == Mine {
        game := game.(isGameOver := true);
        var lostGrid := game.grid;
        sessions := sessions[id := user.(activeGame := None)];
        assert PlayStep(old(sessions), id, index).0[id] == user.(activeGame := None);
        assert PlayStep(old(sessions), id, index).1 == Ok(Boom(lostGrid));
        return Ok(Boom(lostGrid));
      }
      assert UserOk(user);
      game := game.(diamondsFound := game.diamondsFound + 1);
      var nextMult := NextMultiplier(game.currentMultiplier, game.minesCount, game.diamondsFound);
      game := game.(currentMultiplier := nextMult);
      sessions := sessions[id := user.(activeGame := Some(game))];
      r := Ok(Safe(game.currentMultiplier, Payout(game.betAmount, game.currentMultiplier)));
      assert PlayStep(old(sessions), id, index).0[id] == user.(activeGame := Some(game));
      assert PlayStep(old(sessions), id, index).1 == r;
    }

    /** The cashout handler. */
    method Cashout(id: string) returns (r: Result<CashoutReply>)
      requires Valid()
      modifies this
      ensures Valid()
      ensures (sessions, r) == CashoutStep(old(sessions), id)
    {
      CashoutPreservesValid(sessions, id);
      if id !in sessions || sessions[id].activeGame.None? {
        return Err(NoActiveGame);
      }
      var user := sessions[id];
      var game := user.activeGame.value;
      var winAmount := Payout(game.betAmount, game.currentMultiplier);
      user := user.(balance := user.balance + winAmount);
      var fullGrid := game.grid;
      user := user.(activeGame := None);
      sessions := sessions[id := user];
      r := Ok(CashoutReply(winAmount, user.balance, fullGrid));
      assert CashoutStep(old(sessions), id).1.Ok?;
      assert CashoutStep(old(sessions), id).0[id] == user;
    }
  }
}

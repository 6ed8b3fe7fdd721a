/** The vault-room controller: the session state the component keeps and
    the handlers that change it, one method per user action. Each handler
    is one atomic step; the answers of the content generator (a puzzle or
    a failure, an image or none) are parameters of the steps that ask for
    them. The effect that watches the lock list is folded into Unlock: after
    every unlock, an open vault moves to the victory screen. */
module Vault {
  import opened Locks
  import Answers
  import opened Widgets

  datatype GameState = Exploring | PuzzleDetail | Victory

  /** A puzzle as the generator returns it. */
  datatype Puzzle = Puzzle(question: string, answer: string, hint: Option<string>)

  /** The three found-item flags of the room. */
  datatype FoundItems = FoundItems(redKey: bool, blueKey: bool, greenKey: bool)
  {
    predicate Has(k: KeyItem) {
      match k
      case RedKey => redKey
      case BlueKey => blueKey
      case GreenKey => greenKey
    }

    /** The flags with `k` found and every other flag as it was. */
    function With(k: KeyItem): (f: FoundItems)
      ensures f.Has(k)
      ensures forall j :: j != k ==> (f.Has(j) <==> Has(j))
    {
      match k
      case RedKey => this.(redKey := true)
      case BlueKey => this.(blueKey := true)
      case GreenKey => this.(greenKey := true)
    }
  }

  const NothingFound := FoundItems(false, false, false)

  const WelcomeMsg := "We need to open all 12 locks!"
  const MagicFailedMsg := "Oh no, my magic failed! Try again."
  const UnlockedMsg := "Great job! That's one more lock open!"
  const WrongAnswerMsg := "Not quite right, keep trying!"

  function FoundMsg(k: KeyItem): string {
    match k
    case RedKey => "You found the Red Key!"
    case BlueKey => "You found the Blue Key!"
    case GreenKey => "You found the Green Key!"
  }

  /** The three interaction locks with a widget of their own. */
  predicate HasWidget(c: LockCategory) {
    c == InteractClick || c == InteractCode || c == InteractToggle
  }

  /** The categories the detail view serves with the plain "Unseal Lock"
      button: neither AI locks, nor key locks, nor one with a widget. */
  predicate IsCatchAll(c: LockCategory) {
    !c.IsAi() && !c.IsKey() && !HasWidget(c)
  }

  /** Between two lock lists, every key lock that opened asks for an item
      that has been found. */
  predicate KeyLocksGated(before: seq<Lock>, after: seq<Lock>, found: FoundItems) {
    forall i ::
      (0 <= i < |before| && i < |after| && before[i].status == Locked && after[i].status == Unlocked
       && KeyFor(after[i].category).Some?) ==> found.Has(KeyFor(after[i].category).value)
  }

  /** Unlocking a lock of the vault by its id opens no other lock (ids are
      unique), so no key lock opens unless it is that lock and its item is
      found. */
  lemma UnlockIsGated(locks: seq<Lock>, l: Lock, found: FoundItems)
    requires Configured(locks) && l in locks
    requires KeyFor(l.category).Some? ==> found.Has(KeyFor(l.category).value)
    ensures KeyLocksGated(locks, UnlockById(locks, l.id), found)
  {
    var after := UnlockById(locks, l.id);
    var j :| 0 <= j < |locks| && locks[j] == l;
    forall i | 0 <= i < |locks| && locks[i].status == Locked && after[i].status == Unlocked
      ensures after[i].category == l.category
    {
      assert locks[i].id == l.id;
      assert SameLock(locks[i], ConfigEntry(i)) && SameLock(locks[j], ConfigEntry(j));
      assert i == j;
    }
  }

  /** The detail view's lock is one of the vault's closed locks, and the
      shared input holds a text that lock's widget can have written. */
  predicate DetailOpen(active: Option<Lock>, locks: seq<Lock>, input: string) {
    && active.Some?
    && active.value in locks
    && active.value.status == Locked
    && InputFits(active.value.category, input)
  }

  /** What the input holds while the detail view of a lock of category `c`
      is open: a tap count for the click lock, a set of switches for the
      toggle lock, and anything for the others. */
  predicate InputFits(c: LockCategory, input: string) {
    match c
    case InteractClick => ClickInput(input)
    case InteractToggle => ToggleInput(input) && |input| < 4
    case _ => true
  }

  class VaultSession {
    var gameState: GameState
    var locks: seq<Lock>
    var activeLock: Option<Lock>
    var activePuzzle: Option<Puzzle>
    var loading: bool
    var input: string
    var victoryImg: Option<string>
    var msg: string
    var foundItems: FoundItems

    /** The session invariant: the lock list is the fixed configuration
        with only statuses changed; no request is in flight between steps;
        the victory screen is shown exactly when every lock is open; and the
        detail view always belongs to a closed lock of the vault. */
    ghost predicate Valid()
      reads this`locks, this`loading, this`gameState, this`activeLock, this`input
    {
      && Configured(locks)
      && !loading
      && (gameState == Victory <==> AllUnlocked(locks))
      && (gameState == PuzzleDetail ==> DetailOpen(activeLock, locks, input))
    }

    /** The detail view of a lock of category `c` is on screen. */
    predicate Showing(c: LockCategory)
      reads this
    {
      gameState == PuzzleDetail && activeLock.Some? && activeLock.value.category == c
    }

    /** The detail view of a key lock is on screen and its key has been
        found, so the "Use Key" button is offered. */
    predicate KeyOffered()
      reads this
    {
      && gameState == PuzzleDetail
      && activeLock.Some?
      && KeyFor(activeLock.value.category).Some?
      && foundItems.Has(KeyFor(activeLock.value.category).value)
    }

    /** The start of a session: every lock closed, nothing found. */
    constructor ()
      ensures Valid()
      ensures gameState == Exploring && locks == InitialLocks()
      ensures activeLock == None && activePuzzle == None
      ensures input == "" && victoryImg == None && msg == WelcomeMsg
      ensures foundItems == NothingFound
    {
      gameState := Exploring;
      locks := InitialLocks();
      activeLock := None;
      activePuzzle := None;
      loading := false;
      input := "";
      victoryImg := None;
      msg := WelcomeMsg;
      foundItems := NothingFound;
      new;
      assert locks[0].status == Locked;
    }

    /** The victory screen: the generated image, or none, and then VICTORY;
        a missing image does not hold the transition back. */
    method HandleVictory(image: Option<string>)
      modifies this`loading, this`victoryImg, this`gameState
      ensures victoryImg == image && gameState == Victory && !loading
    {
      loading := true;
      victoryImg := image;
      gameState := Victory;
      loading := false;
    }

    /** Opens the lock with identifier `id` and nothing else, back to the
        room; when that opened the last closed lock, the victory screen
        follows with the generator's `image`. */
    method Unlock(id: int, image: Option<string>)
      requires Valid()
      modifies this`locks, this`gameState, this`msg, this`victoryImg, this`loading
      ensures Valid()
      ensures locks == UnlockById(old(locks), id)
      ensures NoneRelocked(old(locks), locks)
      ensures msg == UnlockedMsg
      ensures gameState == (if AllUnlocked(locks) then Victory else Exploring)
      ensures victoryImg == (if AllUnlocked(locks) then image else old(victoryImg))
    {
      UnlockNeverRelocks(locks, id);
      locks := UnlockById(locks, id);
      gameState := Exploring;
      msg := UnlockedMsg;
      if AllUnlocked(locks) {
        HandleVictory(image);
      }
    }

    /** The state after `unlock(activeLock.id)`: exactly the active lock
        has been opened, and the room is shown again with the success
        message, or the victory screen with the generated image once every
        lock is open. */
    twostate predicate OpenedActive(image: Option<string>)
      reads this
    {
      && activeLock.Some?
      && locks == UnlockById(old(locks), activeLock.value.id)
      && gameState == (if AllUnlocked(locks) then Victory else Exploring)
      && msg == UnlockedMsg
      && victoryImg == (if AllUnlocked(locks) then image else old(victoryImg))
    }

    /** The state after a widget stores `text` in the input: the lock stays
        closed, its detail view stays on screen, and nothing else changes. */
    twostate predicate Stored(text: string)
      reads this
    {
      && input == text
      && locks == old(locks) && gameState == old(gameState)
      && msg == old(msg) && victoryImg == old(victoryImg)
    }

    /** `unlock(activeLock.id)` from a detail view: opens the active lock.
        A key lock is only opened this way once its item is found, so no
        key lock opens without its item. */
    method UnlockActive(image: Option<string>)
      requires Valid() && gameState == PuzzleDetail && activeLock.Some?
      requires KeyFor(activeLock.value.category).Some? ==> foundItems.Has(KeyFor(activeLock.value.category).value)
      modifies this`locks, this`gameState, this`msg, this`victoryImg, this`loading
      ensures Valid()
      ensures KeyLocksGated(old(locks), locks, foundItems)
      ensures OpenedActive(image)
    {
      UnlockIsGated(locks, activeLock.value, foundItems);
      Unlock(activeLock.value.id, image);
    }

    /** A tap on a lock of the vault. An open lock changes nothing. A closed
        one becomes the active lock with a cleared input; a non-AI lock
        shows its detail view; an AI lock shows it with the generator's
        puzzle, or, when the generator fails, stays where it was and only
        reports the failure. */
    method OpenLockDetail(lock: Lock, reply: Option<Puzzle>)
      requires Valid() && gameState == Exploring && lock in locks
      modifies this`activeLock, this`input, this`loading, this`activePuzzle, this`gameState, this`msg
      ensures Valid()
      ensures lock.status == Unlocked ==>
        activeLock == old(activeLock) && input == old(input) && activePuzzle == old(activePuzzle)
        && gameState == old(gameState) && msg == old(msg)
      ensures lock.status == Locked ==> activeLock == Some(lock) && input == ""
      ensures lock.status == Locked && !lock.category.IsAi() ==>
        gameState == PuzzleDetail && activePuzzle == old(activePuzzle) && msg == old(msg)
      ensures lock.status == Locked && lock.category.IsAi() && reply.Some? ==>
        gameState == PuzzleDetail && activePuzzle == reply && msg == old(msg)
      ensures lock.status == Locked && lock.category.IsAi() && reply.None? ==>
        gameState == old(gameState) && activePuzzle == old(activePuzzle) && msg == MagicFailedMsg
    {
      if lock.status == Unlocked {
        return;
      }
      activeLock := Some(lock);
      input := "";
      if lock.category.IsAi() {
        loading := true;
        match reply {
          case Some(puzzle) =>
            activePuzzle := Some(puzzle);
            gameState := PuzzleDetail;
          case None =>
            msg := MagicFailedMsg;
        }
        loading := false;
      } else {
        gameState := PuzzleDetail;
      }
    }

    /** The "Unlock!" button (or Enter) in an AI lock's detail view.
        Without an active puzzle nothing happens. Otherwise the active lock
        opens exactly when the input matches the puzzle's answer (lower-cased
        and trimmed); a wrong answer only changes the message. */
    method CheckAnswer(image: Option<string>)
      requires Valid() && gameState == PuzzleDetail && activeLock.Some? && activeLock.value.category.IsAi()
      modifies this`locks, this`gameState, this`msg, this`victoryImg, this`loading
      ensures Valid()
      ensures KeyLocksGated(old(locks), locks, foundItems)
      ensures activePuzzle.None? ==> unchanged(this)
      ensures activePuzzle.Some? && Answers.Matches(input, activePuzzle.value.answer) ==> OpenedActive(image)
      ensures activePuzzle.Some? && !Answers.Matches(input, activePuzzle.value.answer) ==>
        msg == WrongAnswerMsg && unchanged(this`locks, this`gameState, this`victoryImg)
    {
      if activePuzzle.None? {
        return;
      }
      if Answers.Matches(input, activePuzzle.value.answer) {
        UnlockActive(image);
      } else {
        msg := WrongAnswerMsg;
      }
    }

    /** Typing into the answer box of an AI lock. */
    method TypeAnswer(value: string)
      requires Valid() && gameState == PuzzleDetail && activeLock.Some? && activeLock.value.category.IsAi()
      requires activePuzzle.Some?
      modifies this`input
      ensures Valid() && input == value
    {
      input := value;
    }

    /** What every interaction widget does with the outcome of a press:
        open the active lock, or store the new text in the input. */
    method ApplyOutcome(o: Outcome, image: Option<string>)
      requires Valid() && gameState == PuzzleDetail && activeLock.Some? && HasWidget(activeLock.value.category)
      requires o.Store? ==> InputFits(activeLock.value.category, o.input)
      modifies this`input, this`locks, this`gameState, this`msg, this`victoryImg, this`loading
      ensures Valid()
      ensures KeyLocksGated(old(locks), locks, foundItems)
      ensures o.Unlocks? ==> OpenedActive(image) && input == old(input)
      ensures o.Store? ==> Stored(o.input)
    {
      if o.Unlocks? {
        UnlockActive(image);
      } else {
        input := o.input;
      }
    }

    /** A tap on the click lock's button: the tenth tap since the lock was
        opened opens it, every earlier tap only advances the shown count. */
    method TapClick(image: Option<string>)
      requires Valid() && Showing(InteractClick)
      modifies this`input, this`locks, this`gameState, this`msg, this`victoryImg, this`loading
      ensures Valid()
      ensures KeyLocksGated(old(locks), locks, foundItems)
      ensures old(ShownCount(input)) + 1 >= 10 ==> OpenedActive(image)
      ensures old(ShownCount(input)) + 1 < 10 ==>
        Stored(NatToString(old(ShownCount(input)) + 1))
        && AllDigits(input) && ShownCount(input) == old(ShownCount(input)) + 1
    {
      ApplyOutcome(ClickStep(input), image);
    }

    /** A new value in the code lock's field: exactly "1234" opens the
        lock; anything else is only stored in the input. */
    method TypeCode(value: string, image: Option<string>)
      requires Valid() && Showing(InteractCode)
      modifies this`input, this`locks, this`gameState, this`msg, this`victoryImg, this`loading
      ensures Valid()
      ensures KeyLocksGated(old(locks), locks, foundItems)
      ensures value == SecretCode ==> OpenedActive(image)
      ensures value != SecretCode ==> Stored(value)
    {
      ApplyOutcome(CodeStep(value), image);
    }

    /** A press on switch `k` of the toggle lock: the switch flips, and the
        lock opens exactly when that turns all four switches on. */
    method FlipSwitch(k: int, image: Option<string>)
      requires Valid() && Showing(InteractToggle) && 1 <= k <= 4
      modifies this`input, this`locks, this`gameState, this`msg, this`victoryImg, this`loading
      ensures Valid()
      ensures KeyLocksGated(old(locks), locks, foundItems)
      ensures (forall j :: 1 <= j <= 4 ==> SwitchChar(j) in ToggleNext(old(input), SwitchChar(k))) ==>
        OpenedActive(image)
      ensures !(forall j :: 1 <= j <= 4 ==> SwitchChar(j) in ToggleNext(old(input), SwitchChar(k))) ==>
        Stored(ToggleNext(old(input), SwitchChar(k)))
    {
      ApplyOutcome(FlipStep(input, k), image);
    }

    /** The "Use Key" button of a key lock, offered once its key is found. */
    method UseKey(image: Option<string>)
      requires Valid() && KeyOffered()
      modifies this`locks, this`gameState, this`msg, this`victoryImg, this`loading
      ensures Valid()
      ensures KeyLocksGated(old(locks), locks, foundItems)
      ensures OpenedActive(image)
    {
      UnlockActive(image);
    }

    /** The "Unseal Lock" button of the locks without a dedicated widget. */
    method UnsealLock(image: Option<string>)
      requires Valid() && gameState == PuzzleDetail && activeLock.Some? && IsCatchAll(activeLock.value.category)
      modifies this`locks, this`gameState, this`msg, this`victoryImg, this`loading
      ensures Valid()
      ensures KeyLocksGated(old(locks), locks, foundItems)
      ensures OpenedActive(image)
    {
      UnlockActive(image);
    }

    /** A tap on the plant, the rug or the box: the first tap finds the key
        hidden there; a later tap changes nothing. Flags only go from false
        to true. */
    method FindItem(k: KeyItem)
      requires Valid() && gameState == Exploring
      modifies this`foundItems, this`msg
      ensures Valid()
      ensures old(foundItems.Has(k)) ==> foundItems == old(foundItems) && msg == old(msg)
      ensures !old(foundItems.Has(k)) ==> foundItems == old(foundItems).With(k) && msg == FoundMsg(k)
      ensures foundItems.Has(k)
      ensures forall j :: old(foundItems.Has(j)) ==> foundItems.Has(j)
    {
      if !foundItems.Has(k) {
        foundItems := foundItems.With(k);
        msg := FoundMsg(k);
      }
    }

    /** "Back to room": leaves the detail view; no lock changes. */
    method BackToRoom()
      requires Valid() && gameState == PuzzleDetail
      modifies this`gameState
      ensures Valid() && gameState == Exploring
    {
      gameState := Exploring;
    }
  }
}

/** The twelve locks of the vault: their categories, their fixed
    configuration, and the pure list operations the controller applies to
    them (the status update of a single lock and the "all open" test). */
module Locks {

  datatype Option<+T> = None | Some(value: T)

  /** The closed set of lock categories, in three groups: key locks,
      locks whose puzzle comes from the generator, and interaction locks. */
  datatype LockCategory =
    | KeyRed | KeyBlue | KeyGreen
    | AiMath | AiRiddle | AiWord | AiLogic
    | InteractSequence | InteractCode | InteractToggle | InteractClick | InteractShape
  {
    predicate IsKey() { KeyRed? || KeyBlue? || KeyGreen? }
    predicate IsAi() { AiMath? || AiRiddle? || AiWord? || AiLogic? }
  }

  /** The category's name as the program spells it. */
  function CategoryName(c: LockCategory): string {
    match c
    case KeyRed => "KEY_RED"
    case KeyBlue => "KEY_BLUE"
    case KeyGreen => "KEY_GREEN"
    case AiMath => "AI_MATH"
    case AiRiddle => "AI_RIDDLE"
    case AiWord => "AI_WORD"
    case AiLogic => "AI_LOGIC"
    case InteractSequence => "INTERACT_SEQUENCE"
    case InteractCode => "INTERACT_CODE"
    case InteractToggle => "INTERACT_TOGGLE"
    case InteractClick => "INTERACT_CLICK"
    case InteractShape => "INTERACT_SHAPE"
  }

  predicate StartsWith(s: string, prefix: string) {
    |prefix| <= |s| && s[..|prefix|] == prefix
  }

  /** The AI group is exactly the set of categories whose name starts
      with "AI_", the string test the program dispatches on. */
  lemma AiGroupIsPrefixTest(c: LockCategory)
    ensures c.IsAi() <==> StartsWith(CategoryName(c), "AI_")
  {
    var n := CategoryName(c);
    if c.IsAi() {
      assert n[..3] == "AI_";
    } else {
      assert n[0] == 'K' || n[0] == 'I';
    }
  }

  /** The three items hidden in the room, one per key lock. */
  datatype KeyItem = RedKey | BlueKey | GreenKey

  /** The key lock that an item opens. */
  function KeyLock(k: KeyItem): (c: LockCategory)
    ensures c.IsKey()
  {
    match k
    case RedKey => KeyRed
    case BlueKey => KeyBlue
    case GreenKey => KeyGreen
  }

  /** The item a key lock asks for: only key locks ask for one, and each
      asks for the item that opens exactly that lock. */
  function KeyFor(c: LockCategory): (k: Option<KeyItem>)
    ensures k.Some? <==> c.IsKey()
    ensures k.Some? ==> KeyLock(k.value) == c
  {
    match c
    case KeyRed => Some(RedKey)
    case KeyBlue => Some(BlueKey)
    case KeyGreen => Some(GreenKey)
    case _ => None
  }

  /** Each item is asked for by its own lock and by no other. */
  lemma KeyForKeyLock(k: KeyItem, c: LockCategory)
    ensures KeyFor(KeyLock(k)) == Some(k)
    ensures KeyFor(c) == Some(k) <==> c == KeyLock(k)
  {
  }

  datatype LockStatus = Locked | Unlocked

  /** A lock: its identifier, category, display colour and label (`glyph`; `label` is a Dafny keyword), and status. */
  datatype Lock = Lock(id: int, category: LockCategory, color: string, glyph: string, status: LockStatus)

  /** Two locks are the same lock when everything but the status agrees. */
  predicate SameLock(a: Lock, b: Lock) {
    a.id == b.id && a.category == b.category && a.color == b.color && a.glyph == b.glyph
  }

  /** The fixed configuration of the vault, every lock still locked. */
  function InitialLocks(): (r: seq<Lock>)
    ensures |r| == 12
    ensures forall i :: 0 <= i < |r| ==> r[i].id == i + 1 && r[i].status == Locked
    ensures forall i, j :: 0 <= i < j < |r| ==> r[i].category != r[j].category
  {
    [ Lock(1, KeyRed, "bg-red-500", "R", Locked),
      Lock(2, KeyBlue, "bg-blue-500", "B", Locked),
      Lock(3, KeyGreen, "bg-green-500", "G", Locked),
      Lock(4, AiMath, "bg-yellow-500", "+", Locked),
      Lock(5, AiRiddle, "bg-purple-500", "?", Locked),
      Lock(6, AiWord, "bg-orange-500", "W", Locked),
      Lock(7, AiLogic, "bg-indigo-500", "L", Locked),
      Lock(8, InteractSequence, "bg-pink-500", "S", Locked),
      Lock(9, InteractCode, "bg-gray-700", "#", Locked),
      Lock(10, InteractToggle, "bg-teal-500", "T", Locked),
      Lock(11, InteractClick, "bg-rose-400", "C", Locked),
      Lock(12, InteractShape, "bg-cyan-600", "\U{2206}", Locked) ]
  }

  /** Entry `i` of the configuration. */
  function ConfigEntry(i: nat): (l: Lock)
    requires i < 12
    ensures l.id == i + 1
  {
    InitialLocks()[i]
  }

  /** The list after unlocking the lock with the given id: that lock (every
      lock with that id) becomes Unlocked, every other lock is kept as it
      was, and length and order do not change. */
  function UnlockById(locks: seq<Lock>, id: int): (r: seq<Lock>)
    ensures |r| == |locks|
    ensures forall i :: 0 <= i < |r| ==> SameLock(r[i], locks[i])
    ensures forall i :: 0 <= i < |r| && locks[i].id == id ==> r[i].status == Unlocked
    ensures forall i :: 0 <= i < |r| && locks[i].id != id ==> r[i] == locks[i]
  {
    if locks == [] then []
    else
      var head := if locks[0].id == id then locks[0].(status := Unlocked) else locks[0];
      [head] + UnlockById(locks[1..], id)
  }

  /** A lock list that is the fixed configuration with only statuses changed. */
  predicate Configured(locks: seq<Lock>) {
    && |locks| == 12
    && forall i :: 0 <= i < |locks| ==> SameLock(locks[i], ConfigEntry(i))
  }

  /** The victory test `locks.every(l => l.status === UNLOCKED)`: every
      lock of the list is open. Such a list is a fixed point of unlocking. */
  predicate AllUnlocked(locks: seq<Lock>)
    ensures AllUnlocked(locks) ==> forall id :: UnlockById(locks, id) == locks
  {
    forall i :: 0 <= i < |locks| ==> locks[i].status == Unlocked
  }

  /** No lock that was open in `before` is closed in `after`. */
  predicate NoneRelocked(before: seq<Lock>, after: seq<Lock>) {
    |before| == |after| &&
    forall i :: 0 <= i < |before| && before[i].status == Unlocked ==> after[i].status == Unlocked
  }

  /** Unlocking never closes a lock. */
  lemma UnlockNeverRelocks(locks: seq<Lock>, id: int)
    ensures NoneRelocked(locks, UnlockById(locks, id))
  {
  }

  /** Unlocking the same id twice is the same as unlocking it once. */
  lemma UnlockIdempotent(locks: seq<Lock>, id: int)
    ensures UnlockById(UnlockById(locks, id), id) == UnlockById(locks, id)
  {
  }

  /** Two unlocks commute: the order in which locks are opened does not matter. */
  lemma UnlockCommutes(locks: seq<Lock>, a: int, b: int)
    ensures UnlockById(UnlockById(locks, a), b) == UnlockById(UnlockById(locks, b), a)
  {
  }

  /** The list after unlocking the ids of `order`, first to last. */
  function UnlockEach(locks: seq<Lock>, order: seq<int>): (r: seq<Lock>)
    ensures |r| == |locks|
    ensures forall i :: 0 <= i < |r| ==> SameLock(r[i], locks[i])
    decreases |order|
  {
    if order == [] then locks else UnlockEach(UnlockById(locks, order[0]), order[1..])
  }

  /** After a run of unlocks a lock is open exactly when it was open
      already or its id was among those unlocked. */
  lemma {:induction false} UnlockEachStatus(locks: seq<Lock>, order: seq<int>, i: int)
    requires 0 <= i < |locks|
    ensures UnlockEach(locks, order)[i].status == Unlocked
        <==> locks[i].status == Unlocked || locks[i].id in order
    decreases |order|
  {
    if order != [] {
      var next := UnlockById(locks, order[0]);
      UnlockEachStatus(next, order[1..], i);
      assert order == [order[0]] + order[1..];
      assert SameLock(next[i], locks[i]);
    }
  }

  /** Whatever the order, a run of unlocks opens the whole list exactly
      when it names every lock that was still closed. */
  lemma UnlockInAnyOrder(locks: seq<Lock>, order: seq<int>)
    ensures AllUnlocked(UnlockEach(locks, order))
        <==> forall i :: 0 <= i < |locks| && locks[i].status == Locked ==> locks[i].id in order
  {
    forall i | 0 <= i < |locks| {
      UnlockEachStatus(locks, order, i);
    }
  }

  /** From the initial configuration, a run of unlocks opens the vault
      exactly when it names each of the ids 1 to 12, in any order and with
      any repetitions. */
  lemma VaultOpensInAnyOrder(order: seq<int>)
    ensures AllUnlocked(UnlockEach(InitialLocks(), order))
        <==> forall id :: 1 <= id <= 12 ==> id in order
  {
    var locks := InitialLocks();
    UnlockInAnyOrder(locks, order);
    if forall id :: 1 <= id <= 12 ==> id in order {
      forall i | 0 <= i < |locks| ensures locks[i].id in order {
        assert 1 <= locks[i].id <= 12;
      }
    }
    if forall i :: 0 <= i < |locks| && locks[i].status == Locked ==> locks[i].id in order {
      forall id | 1 <= id <= 12 ensures id in order {
        assert locks[id - 1].id == id;
      }
    }
  }
}

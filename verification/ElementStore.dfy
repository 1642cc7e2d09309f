/** The slots of the blocks of concurrentqueue.h, as both producers use them: element number x is constructed in slot
    x % 32 of the block that holds numbers 32 n .. 32 n + 31, n = x / 32, and its consumer moves it out of there. */
module ElementStore {

  datatype Place = Place(block: nat, slot: nat)

  /** `slots` has the slots in which an element has been constructed and not destroyed, `elems` what has been
      constructed, in order, and `got` what the consumer of each number has moved out. */
  datatype Store<!T> = Store(slots: map<Place, T>, elems: seq<T>, got: map<nat, T>)

  /** new (block[index]) T(v) */
  function Construct<T>(st: Store<T>, b: nat, v: T): Store<T> {
    st.(slots := st.slots[Place(b, |st.elems| % 32) := v], elems := st.elems + [v])
  }

  /** The element in the slot for number x of block b is moved out and destroyed. */
  function MoveOut<T>(st: Store<T>, b: nat, x: nat): Store<T>
    requires Place(b, x % 32) in st.slots
  {
    st.(slots := st.slots - {Place(b, x % 32)}, got := st.got[x := st.slots[Place(b, x % 32)]])
  }

  /** Element x is where its consumer looks for it; homes[n] is the block that holds numbers 32 n .. 32 n + 31. */
  ghost predicate InPlace<T>(st: Store<T>, homes: map<nat, nat>, x: nat) {
    && x < |st.elems| && x / 32 in homes && Place(homes[x / 32], x % 32) in st.slots
    && st.slots[Place(homes[x / 32], x % 32)] == st.elems[x]
  }

  ghost predicate Holds<T>(st: Store<T>, homes: map<nat, nat>) {
    && (forall x: nat {:trigger InPlace(st, homes, x)} :: x < |st.elems| && x !in st.got ==> InPlace(st, homes, x))
    && (forall x :: x in st.got ==> x < |st.elems| && st.got[x] == st.elems[x])
  }

  ghost predicate Apart(homes: map<nat, nat>) {
    forall n, m :: n in homes && m in homes && n != m ==> homes[n] != homes[m]
  }

  lemma SamePlace(homes: map<nat, nat>, x: nat, y: nat)
    requires Apart(homes) && x / 32 in homes && y / 32 in homes
    ensures Place(homes[x / 32], x % 32) == Place(homes[y / 32], y % 32) ==> x == y
  {}

  lemma ConstructHolds<T>(st: Store<T>, homes: map<nat, nat>, v: T)
    requires Holds(st, homes) && Apart(homes) && |st.elems| / 32 in homes
    ensures Holds(Construct(st, homes[|st.elems| / 32], v), homes)
  {
    var n := |st.elems|;
    var st' := Construct(st, homes[n / 32], v);
    forall x: nat {:trigger InPlace(st', homes, x)} | x < |st'.elems| && x !in st'.got ensures InPlace(st', homes, x) {
      if x < n {
        assert InPlace(st, homes, x);
        SamePlace(homes, x, n);
      }
    }
  }

  lemma MoveOutHolds<T>(st: Store<T>, homes: map<nat, nat>, x: nat)
    requires Holds(st, homes) && Apart(homes) && x < |st.elems| && x !in st.got
    ensures InPlace(st, homes, x) && Holds(MoveOut(st, homes[x / 32], x), homes)
    ensures MoveOut(st, homes[x / 32], x).got == st.got[x := st.elems[x]]
  {
    assert InPlace(st, homes, x);
    var st' := MoveOut(st, homes[x / 32], x);
    forall y: nat {:trigger InPlace(st', homes, y)} | y < |st'.elems| && y !in st'.got ensures InPlace(st', homes, y) {
      assert InPlace(st, homes, y);
      SamePlace(homes, x, y);
    }
  }

  /** Blocks may be given to other numbers as long as those of the elements that are still there stay. */
  lemma HomesChange<T>(st: Store<T>, homes: map<nat, nat>, homes': map<nat, nat>)
    requires Holds(st, homes)
    requires forall x: nat :: x < |st.elems| && x !in st.got && x / 32 in homes ==>
      x / 32 in homes' && homes'[x / 32] == homes[x / 32]
    ensures Holds(st, homes')
  {
    forall x: nat {:trigger InPlace(st, homes', x)} | x < |st.elems| && x !in st.got ensures InPlace(st, homes', x) {
      assert InPlace(st, homes, x);
    }
  }
}

/**
 * Properties and fields: a setter that guards its backing field, a computed
 * `isEmpty` getter, a lazily created backing map and a `lateinit` property.
 */
module PropertiesAndFields {
  import opened Int32

  /** The top-level `var counter = 0` with a setter that ignores negative values. */
  class Counter {
    /** The backing `field`. */
    var field: Int32

    ghost predicate Valid()
      reads this
    {
      field >= 0
    }

    /** The initializer writes the backing field directly. */
    constructor ()
      ensures field == 0 && Valid()
    {
      field := 0;
    }

    /** `counter = value`: stores a non-negative value, leaves the field as it was otherwise. */
    method Set(value: Int32)
      modifies this
      ensures value >= 0 ==> field == value
      ensures value < 0 ==> field == old(field)
      ensures old(Valid()) ==> Valid()
    {
      if value >= 0 {
        field := value;
      }
    }
  }

  /** A stack whose `isEmpty` is computed from its private `size`. */
  class Stack {
    var size: Int32

    predicate IsEmpty()
      reads this
    {
      size == 0
    }

    constructor ()
      ensures size == 0 && IsEmpty()
    {
      size := 0;
    }
  }

  /** The `HashMap` the table getter creates; `contents` is what the read-only `Map` view shows. */
  class HashMap {
    var contents: map<string, int>

    constructor ()
      ensures contents == map[]
    {
      contents := map[];
    }
  }

  /** A backing property `_table` behind the read-only `table`. */
  class Table {
    /** `_table`, null until the first read of `table`. */
    var backing: HashMap?

    constructor ()
      ensures backing == null
    {
      backing := null;
    }

    /**
     * The `table` getter: the first read creates an empty map and stores it,
     * every later read returns that same map.
     */
    method GetTable() returns (t: HashMap)
      modifies this
      ensures old(backing) == null ==> fresh(t) && t.contents == map[]
      ensures old(backing) != null ==> t == old(backing)
      ensures backing == t
    {
      if backing == null {
        backing := new HashMap();
      }
      t := backing;
    }
  }

  /** A class with a `lateinit var table: Table`. */
  class Test {
    /** The `lateinit` property: null stands for "not initialized". */
    var table: Table?

    predicate IsInitialized()
      reads this
    {
      table != null
    }

    constructor ()
      ensures !IsInitialized()
    {
      table := null;
    }

    /** `prepareTable`: initializes the property with a new table. */
    method PrepareTable()
      modifies this
      ensures IsInitialized() && fresh(table)
      ensures table.backing == null
    {
      table := new Table();
    }

    /** `useTable`: uses the table only when `this::table.isInitialized`; `used` reports whether it did. */
    method UseTable() returns (used: bool)
      ensures used <==> IsInitialized()
    {
      used := false;
      if table != null {
        used := true;
      }
    }
  }

  /** Assigning 5 and then -1 to `counter` leaves 5. */
  method AssignCounter() returns (value: Int32)
    ensures value == 5
  {
    var counter := new Counter();
    counter.Set(5);
    counter.Set(-1);
    value := counter.field;
  }

  /** Reading the table twice yields the same map, and a new table is empty on first read. */
  method ReadTableTwice() returns (first: HashMap, second: HashMap)
    ensures first == second && first.contents == map[]
  {
    var t := new Table();
    first := t.GetTable();
    second := t.GetTable();
  }

  /** `Test`: not initialized before `prepareTable()`, initialized after it. */
  method PrepareThenUse() returns (before: bool, after: bool)
    ensures !before && after
  {
    var test := new Test();
    before := test.UseTable();
    test.PrepareTable();
    after := test.UseTable();
  }
}

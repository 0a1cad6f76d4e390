/**
 * Classes: secondary constructors that register the object under
 * construction in a parent's `children` list.
 */
module Classes {

  /** `Person5`: its only constructor takes the parent and adds the new person to it. */
  class Person5 {
    var children: seq<Person5>

    constructor (parent: Person5)
      modifies parent
      ensures children == []
      ensures parent.children == old(parent.children) + [this]
    {
      children := [];
      new;
      parent.children := parent.children + [this];
    }
  }

  /** `Person6(name)`: the primary constructor, and a secondary one that also registers with a parent. */
  class Person6 {
    const name: string
    var children: seq<Person6>

    constructor (name: string)
      ensures this.name == name && children == []
    {
      this.name := name;
      children := [];
    }

    constructor WithParent(name: string, parent: Person6)
      modifies parent
      ensures this.name == name && children == []
      ensures parent.children == old(parent.children) + [this]
    {
      this.name := name;
      children := [];
      new;
      parent.children := parent.children + [this];
    }
  }

  /** Two children built under one parent are listed in construction order, the parent's own list starting empty. */
  method FamilyOfThree() returns (parent: Person6, first: Person6, second: Person6)
    ensures fresh(parent) && fresh(first) && fresh(second)
    ensures parent.children == [first, second]
    ensures first.children == [] && second.children == []
    ensures parent.name == "parent" && first.name == "first" && second.name == "second"
  {
    parent := new Person6("parent");
    first := new Person6.WithParent("first", parent);
    second := new Person6.WithParent("second", parent);
  }
}

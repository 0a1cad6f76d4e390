/**
 * Delegated properties: `Delegate`, whose getter builds a message from the
 * property's name and whose setter only prints, and the two resource
 * delegates, one of which ignores assigned values that are not a `Resource`.
 *
 * `thisRef` is given as the string its `toString()` produces, and a
 * `KProperty` as its `name`.
 */
module DelegatedProperties {

  const GetPrefix: string := ", thank you for delegating '"
  const GetSuffix: string := "' to me!"
  const SetInfix: string := " has been assigned to '"
  const SetMiddle: string := "' in "

  /** A delegate with no state of its own. */
  class Delegate {

    constructor ()
    {
    }

    /**
     * `getValue`: `"$thisRef, thank you for delegating '${property.name}' to me!"`.
     * It reads no state, so its value depends on the receiver and the name alone.
     */
    function GetValue(thisRef: string, propertyName: string): (r: string)
      ensures |r| == |thisRef| + |GetPrefix| + |propertyName| + |GetSuffix|
      ensures r[..|thisRef|] == thisRef
      ensures r[|thisRef| + |GetPrefix|..|r| - |GetSuffix|] == propertyName
    {
      thisRef + GetPrefix + propertyName + GetSuffix
    }

    /**
     * `setValue`: stores nothing (it modifies no state) and prints
     * `"$value has been assigned to '${property.name}' in $thisRef."`, returned here.
     */
    method SetValue(thisRef: string, propertyName: string, value: string) returns (printed: string)
      ensures |printed| == |value| + |SetInfix| + |propertyName| + |SetMiddle| + |thisRef| + 1
      ensures printed[..|value|] == value
      ensures printed[|value| + |SetInfix|..|value| + |SetInfix| + |propertyName|] == propertyName
      ensures printed[|printed| - |thisRef| - 1..] == thisRef + "."
    {
      printed := value + SetInfix + propertyName + SetMiddle + thisRef + ".";
    }
  }

  /** The delegated property name is recoverable from what `getValue` returns. */
  lemma GetValueNamesProperty(d: Delegate, thisRef: string, name1: string, name2: string)
    ensures d.GetValue(thisRef, name1) == d.GetValue(thisRef, name2) ==> name1 == name2
  {
    var r1, r2 := d.GetValue(thisRef, name1), d.GetValue(thisRef, name2);
    if r1 == r2 {
      assert name1 == r1[|thisRef| + |GetPrefix|..|r1| - |GetSuffix|];
    }
  }

  /** A get, a set and another get see the same string: the setter changes nothing the getter reads. */
  method SetBetweenGets(d: Delegate, thisRef: string, name: string, value: string) returns (before: string, after: string)
    ensures before == after
    ensures before == thisRef + ", thank you for delegating '" + name + "' to me!"
  {
    before := d.GetValue(thisRef, name);
    var _ := d.SetValue(thisRef, name, value);
    after := d.GetValue(thisRef, name);
  }

  class Resource {
    constructor ()
    {
    }
  }

  /** A value of Kotlin type `Any?`, as far as the resource delegates can tell. */
  datatype AnyValue = Null | ResourceValue(resource: Resource) | OtherValue

  /** `ResourceDelegate(private var resource: Resource = Resource())`. */
  class ResourceDelegate {
    var resource: Resource

    constructor (resource: Resource)
      ensures this.resource == resource
    {
      this.resource := resource;
    }

    /** The constructor call with the default argument `Resource()`. */
    constructor WithDefault()
      ensures fresh(resource)
    {
      resource := new Resource();
    }

    /** `getValue`: the stored resource. */
    function GetValue(): Resource
      reads this
    {
      resource
    }

    /** `setValue`: stores `value` when it is a `Resource`; null and anything else leave it unchanged. */
    method SetValue(value: AnyValue)
      modifies this
      ensures value.ResourceValue? ==> GetValue() == value.resource
      ensures !value.ResourceValue? ==> GetValue() == old(GetValue())
    {
      if value.ResourceValue? {
        resource := value.resource;
      }
    }
  }

  /** `ResourceDelegate1`, the `ReadWriteProperty` version: every assignment replaces the resource. */
  class ResourceDelegate1 {
    var resource: Resource

    constructor (resource: Resource)
      ensures this.resource == resource
    {
      this.resource := resource;
    }

    constructor WithDefault()
      ensures fresh(resource)
    {
      resource := new Resource();
    }

    function GetValue(): Resource
      reads this
    {
      resource
    }

    /** `setValue`: get returns the last value set. */
    method SetValue(value: Resource)
      modifies this
      ensures GetValue() == value
    {
      resource := value;
    }
  }

  /** `Owner`, whose `valResource` is delegated to a `ResourceDelegate`. */
  class Owner {
    const valResourceDelegate: ResourceDelegate

    constructor ()
      ensures fresh(valResourceDelegate) && fresh(valResourceDelegate.resource)
    {
      valResourceDelegate := new ResourceDelegate.WithDefault();
    }

    /** Reading `valResource` asks the delegate, which hands back the resource it stores. */
    function ValResource(): (r: Resource)
      reads valResourceDelegate
      ensures r == valResourceDelegate.resource
    {
      valResourceDelegate.GetValue()
    }
  }
}

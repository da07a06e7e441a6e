/** The lazy singleton of appes6.js: `getInstance` creates the one instance on
    its first call and hands back that same object on every later call. */
module SingletonPattern {

  /** The object `createInstance` builds, `{name: 'Brad'}`. Being a class,
      it has an identity, so "the same instance" is reference equality,
      JavaScript's `===` on objects. */
  class Instance {
    const name: string

    constructor (name: string)
      ensures this.name == name
    {
      this.name := name;
    }
  }

  /** `createInstance`: a new object named "Brad" on every call. */
  method CreateInstance() returns (o: Instance)
    ensures fresh(o) && o.name == "Brad"
  {
    o := new Instance("Brad");
  }

  class Singleton {
    /** The module's private `instance`; `null` stands for `undefined`
        before the first call. */
    var instance: Instance?

    constructor ()
      ensures instance == null
    {
      instance := null;
    }

    /** `getInstance`: create only when no instance exists, otherwise return
        the one already made. Either way the stored instance is the result. */
    method GetInstance() returns (r: Instance)
      modifies this
      ensures old(instance) == null ==> fresh(r) && r.name == "Brad"
      ensures old(instance) != null ==> r == old(instance)
      ensures instance == r
    {
      if instance == null {
        instance := CreateInstance();
      }
      r := instance;
    }
  }

  /** The module's own demonstration: two calls yield the identical object,
      so `instanceA === instanceB` is true. */
  method TwoCalls() returns (a: Instance, b: Instance)
    ensures a == b
    ensures a.name == "Brad"
  {
    var singleton := new Singleton();
    a := singleton.GetInstance();
    b := singleton.GetInstance();
  }
}

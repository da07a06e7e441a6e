/** The factory pattern of appes6.js: `MemberFactory.createMember(name, type)`
    builds a membership record through one of three constructors chosen by the
    type tag, then stamps `type` on it. */
module FactoryPattern {
  import opened Wrappers

  /** A membership as `createMember` returns it: the constructor sets `name`
      and `cost`, the factory adds `type` (here the field `kind`, since
      `type` is a Dafny keyword). */
  datatype Membership = Membership(name: string, cost: string, kind: string)

  /** An unrecognised tag leaves `member` undefined, and writing `member.type`
      then throws a TypeError: that failure, with the tag that caused it. */
  datatype FactoryError = UndefinedMember(kind: string)

  /** The price list the three constructors `SimpleMembership`,
      `StandardMembership` and `SuperMembership` encode. */
  const Prices: map<string, string> := map["simple" := "$5", "standard" := "$15", "super" := "$25"]

  /** `createMember`: the cost comes from the constructor the tag selects,
      the name from the caller, and the tag itself is stored as `type`. */
  function CreateMember(name: string, kind: string): (r: Result<Membership, FactoryError>)
    ensures r.Success? <==> kind in Prices
    ensures r.Success? ==> r.value == Membership(name, Prices[kind], kind)
    ensures r.Failure? ==> r.error == UndefinedMember(kind)
  {
    var cost :=
      if kind == "simple" then Some("$5")
      else if kind == "standard" then Some("$15")
      else if kind == "super" then Some("$25")
      else None;
    if cost.None? then Failure(UndefinedMember(kind))
    else Success(Membership(name, cost.value, kind))
  }

  /** `define`: the line a membership logs about itself. */
  function Define(m: Membership): (line: string)
  {
    m.name + " (" + m.kind + "): " + m.cost
  }

  /** The layout of a `define` line, piece by piece: the name, " (", the
      type, "): " and the cost, with nothing else. */
  lemma DefineLayout(m: Membership)
    ensures |Define(m)| == |m.name| + |m.kind| + |m.cost| + 5
    ensures Define(m)[..|m.name|] == m.name
    ensures Define(m)[|m.name|..|m.name| + 2] == " ("
    ensures Define(m)[|m.name| + 2..|m.name| + 2 + |m.kind|] == m.kind
    ensures Define(m)[|m.name| + 2 + |m.kind|..|Define(m)| - |m.cost|] == "): "
    ensures Define(m)[|Define(m)| - |m.cost|..] == m.cost
  {
  }

  /** The factory's own demonstration: the four members created there. */
  lemma DemoRoster()
    ensures CreateMember("John Doe", "simple") == Success(Membership("John Doe", "$5", "simple"))
    ensures CreateMember("Chris Jackson", "super") == Success(Membership("Chris Jackson", "$25", "super"))
    ensures CreateMember("Janice Williams", "simple") == Success(Membership("Janice Williams", "$5", "simple"))
    ensures CreateMember("Tom Smith", "standard") == Success(Membership("Tom Smith", "$15", "standard"))
  {
  }

  /** The lines `define` writes for the four demonstration members, in order. */
  lemma DemoDefineLines()
    ensures Define(Membership("John Doe", "$5", "simple")) == "John Doe (simple): $5"
    ensures Define(Membership("Chris Jackson", "$25", "super")) == "Chris Jackson (super): $25"
    ensures Define(Membership("Janice Williams", "$5", "simple")) == "Janice Williams (simple): $5"
    ensures Define(Membership("Tom Smith", "$15", "standard")) == "Tom Smith (standard): $15"
  {
  }
}

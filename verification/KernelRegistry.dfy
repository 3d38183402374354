/** The process-wide registry of groups by name. */
module KernelRegistry {
  /** What registering asks for; two groups are the same only when they are the same object, numbered by `id`. */
  datatype Registered<B> = Registered(id: nat, builder: B)

  class Registry<B> {
    var groups: map<string, Registered<B>>
    var made: nat

    ghost predicate Valid()
      reads this
    {
      && (forall name :: name in groups ==> groups[name].id < made)
      && (forall a, b :: a in groups && b in groups && groups[a].id == groups[b].id ==> a == b)
    }

    constructor ()
      ensures Valid() && groups == map[]
    {
      groups, made := map[], 0;
    }

    /** The first call for a name makes the group; later calls get that group and their builder is ignored. */
    method Register(name: string, builder: B) returns (group: Registered<B>)
      requires Valid()
      modifies this
      ensures Valid()
      ensures name in groups && groups[name] == group
      ensures name in old(groups) ==> group == old(groups)[name] && groups == old(groups)
      ensures name !in old(groups) ==>
                group.builder == builder && groups == old(groups)[name := group]
                && forall other :: other in old(groups) ==> old(groups)[other].id != group.id
    {
      if name in groups { return groups[name]; }
      group := Registered(made, builder);
      groups, made := groups[name := group], made + 1;
    }
  }
}

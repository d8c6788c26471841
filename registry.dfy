/** The process-wide registry of compiled templates: a map from template name
    (the first fragment of its set) to the compiled unit. The mutex that guards
    the map in the source is not modelled; every access here is sequential. */
module Registry {
  import opened Types

  /** A compiled template unit: the fragment sources parsed into it, in
      order, and the name of the definition it executes (`ROOT` once it has
      been looked up). */
  datatype Unit = Unit(sources: seq<string>, entry: string)

  /** What `Get` answers for `name` when the registry holds `m`: the unit, or
      nil when no unit is registered under that name. */
  function Lookup(m: map<string, Unit>, name: string): (r: Option<Unit>)
    ensures r.Some? <==> name in m
    ensures r.Some? ==> r.value == m[name]
  {
    if name in m then Some(m[name]) else None
  }

  /** Map semantics of the registry: `Get` after `Add(name, t)` gives `t`,
      `Get` after `Delete(name)` gives nil, and both leave every other name
      as it was. */
  lemma LookupAfterUpdate(m: map<string, Unit>, name: string, t: Unit, other: string)
    requires other != name
    ensures Lookup(m[name := t], name) == Some(t)
    ensures Lookup(m - {name}, name) == None
    ensures Lookup(m[name := t], other) == Lookup(m, other)
    ensures Lookup(m - {name}, other) == Lookup(m, other)
  {
  }

  /** The registry, as an object whose map the operations update in place. */
  class TemplateRegistry {
    var templates: map<string, Unit>

    /** An empty registry: `Get` of any name answers nil. */
    constructor ()
      ensures templates == map[]
    {
      templates := map[];
    }

    /** The unit registered under `name`, or nil when there is none. */
    method Get(name: string) returns (t: Option<Unit>)
      ensures t.Some? <==> name in templates
      ensures t.Some? ==> t.value == templates[name]
    {
      if name in templates {
        t := Some(templates[name]);
      } else {
        t := None;
      }
    }

    /** Registers `t` under `name`, replacing any unit registered there. */
    method Add(name: string, t: Unit)
      modifies this
      ensures templates == old(templates)[name := t]
      ensures Lookup(templates, name) == Some(t)
      ensures forall n :: n != name ==> Lookup(templates, n) == Lookup(old(templates), n)
    {
      templates := templates[name := t];
    }

    /** Removes whatever is registered under `name`. */
    method Delete(name: string)
      modifies this
      ensures templates == old(templates) - {name}
      ensures Lookup(templates, name) == None
      ensures forall n :: n != name ==> Lookup(templates, n) == Lookup(old(templates), n)
    {
      templates := templates - {name};
    }
  }
}

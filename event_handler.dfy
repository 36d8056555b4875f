/** `@event_handler`: decorating a method registers it, by its function name,
    in the one handler table every node dispatches through (`Node.handlers`,
    a class attribute), and leaves the plain function as the class attribute. */
module EventHandler {

  /** A function object: the class whose body defined it and its `__name__`. */
  datatype Handler = Handler(owner: string, fnName: string)

  /** The table after `fn` registered: `fn` under its name, everything else as before. */
  function Register(table: map<string, Handler>, fn: Handler): (r: map<string, Handler>)
    ensures fn.fnName in r && r[fn.fnName] == fn
    ensures r.Keys == table.Keys + {fn.fnName}
    ensures forall k :: k in table && k != fn.fnName ==> r[k] == table[k]
  {
    table[fn.fnName := fn]
  }

  /** Registering a second function of the same name replaces the first, as
      if the first had never been registered. */
  lemma ReRegisterOverwrites(table: map<string, Handler>, f: Handler, g: Handler)
    requires f.fnName == g.fnName
    ensures Register(Register(table, f), g) == Register(table, g)
  {
  }

  /** The registry state that `__set_name__` writes: `Node.handlers`, shared by
      every subclass because no subclass defines its own, and the attributes
      of the owner classes (class name, attribute name) it rebinds. */
  class HandlerRegistry {
    var handlers: map<string, Handler>
    var attributes: map<(string, string), Handler>

    constructor ()
      ensures handlers == map[] && attributes == map[]
    {
      handlers := map[];
      attributes := map[];
    }

    /** `__set_name__(owner, name)`: whichever class `owner` is, the
        function lands in the one shared table under its own name, and the
        owner's attribute `name` becomes the raw function, so it stays
        directly callable. */
    method SetName(owner: string, name: string, fn: Handler)
      modifies this
      ensures handlers == Register(old(handlers), fn)
      ensures attributes == old(attributes)[(owner, name) := fn]
    {
      handlers := Register(handlers, fn);
      attributes := attributes[(owner, name) := fn];
    }
  }
}

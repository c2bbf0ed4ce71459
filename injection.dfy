/** `Injection`: a registry from a type to the one object bound to it. The
    C# static dictionary becomes the field of one registry object; a type is
    named by a tag (the full name `typeof(T)` prints), and every bound or
    resolved value lives in one object domain. */
module Injections {

  /** The full name of a type argument `T`, e.g. "Kalkatos.IStorage". */
  type TypeTag = string

  /** A value of the bound type; `Null` is C#'s `default` (null, or zero for value types). */
  datatype Obj = Null | Object(id: nat)

  /** The message `Resolve` hands to `Logger.LogError` for an unbound type. */
  function NoBindingMessage(t: TypeTag): (msg: string)
    ensures |msg| > |t| && msg[|msg| - |t|..] == t
  {
    "No binding found for type " + t
  }

  /** What resolving `t` against `instances` yields. */
  function Resolved(instances: map<TypeTag, Obj>, t: TypeTag): Obj {
    if t in instances then instances[t] else Null
  }

  /** The error messages resolving `t` logs: one exactly when `t` is unbound and `quiet` is false. */
  function ResolveLog(instances: map<TypeTag, Obj>, t: TypeTag, quiet: bool): seq<string> {
    if t in instances || quiet then [] else [NoBindingMessage(t)]
  }

  class Injection {
    /** `private static Dictionary<Type, object> instances`. */
    var instances: map<TypeTag, Obj>
    /** The messages passed to `Logger.LogError`, oldest first. */
    var errorLog: seq<string>

    constructor ()
      ensures instances == map[] && errorLog == []
    {
      instances := map[];
      errorLog := [];
    }

    /** `Bind<T>(obj)`: adds the binding, or replaces the one already there. */
    method Bind(t: TypeTag, obj: Obj)
      modifies this
      ensures instances == old(instances)[t := obj]
      ensures errorLog == old(errorLog)
    {
      if t !in instances {
        instances := instances[t := obj];  // instances.Add
        return;
      }
      instances := instances[t := obj];
    }

    /** `Resolve<T>(out T instance, bool quiet)`: the bound object, or `default`
        plus an error log entry unless `quiet`. The bindings never change. */
    method ResolveOut(t: TypeTag, quiet: bool) returns (instance: Obj)
      modifies this
      ensures instances == old(instances)
      ensures instance == Resolved(instances, t)
      ensures errorLog == old(errorLog) + ResolveLog(instances, t, quiet)
      ensures t !in instances ==> instance == Null && (|errorLog| == |old(errorLog)| + 1 <==> !quiet)
    {
      if t in instances {
        instance := instances[t];
        return;
      }
      if !quiet {
        errorLog := errorLog + [NoBindingMessage(t)];
      }
      instance := Null;
    }

    /** `Resolve<T>(bool quiet)`: the same instance and log effect as the `out` overload. */
    method Resolve(t: TypeTag, quiet: bool) returns (instance: Obj)
      modifies this
      ensures instances == old(instances)
      ensures instance == Resolved(instances, t)
      ensures errorLog == old(errorLog) + ResolveLog(instances, t, quiet)
    {
      instance := ResolveOut(t, quiet);
    }
  }

  /** After `Bind(t, obj)`, resolving `t` gives `obj` and logs nothing. */
  lemma ResolveAfterBind(instances: map<TypeTag, Obj>, t: TypeTag, obj: Obj, quiet: bool)
    ensures Resolved(instances[t := obj], t) == obj
    ensures ResolveLog(instances[t := obj], t, quiet) == []
  {
  }

  /** A second bind of the same type wins. */
  lemma BindOverwrites(instances: map<TypeTag, Obj>, t: TypeTag, first: Obj, second: Obj)
    ensures instances[t := first][t := second] == instances[t := second]
  {
  }

  /** Binding `t` leaves what every other type resolves to, and logs, unchanged. */
  lemma BindOthersUnchanged(instances: map<TypeTag, Obj>, t: TypeTag, obj: Obj, u: TypeTag, quiet: bool)
    requires u != t
    ensures Resolved(instances[t := obj], u) == Resolved(instances, u)
    ensures ResolveLog(instances[t := obj], u, quiet) == ResolveLog(instances, u, quiet)
  {
  }

  /** An unbound type resolves to `default`, with one error entry naming it exactly when not quiet. */
  lemma ResolveUnbound(instances: map<TypeTag, Obj>, t: TypeTag, quiet: bool)
    requires t !in instances
    ensures Resolved(instances, t) == Null
    ensures ResolveLog(instances, t, quiet) == if quiet then [] else [NoBindingMessage(t)]
  {
  }

  /** A registry used by a client: bind, rebind, resolve, and resolve an unbound type. */
  method RegistryScenario() returns (got: Obj, quietly: Obj, missing: Obj, log: seq<string>)
    ensures got == Object(2) && quietly == Null && missing == Null
    ensures log == [NoBindingMessage("Kalkatos.ILogger")]
  {
    var registry := new Injection();
    registry.Bind("Kalkatos.IStorage", Object(1));
    registry.Bind("Kalkatos.IStorage", Object(2));
    got := registry.Resolve("Kalkatos.IStorage", false);
    quietly := registry.ResolveOut("Kalkatos.ILogger", true);
    missing := registry.Resolve("Kalkatos.ILogger", false);
    log := registry.errorLog;
  }
}

/** The proxy that dry runs read the database through. */
module StrictProxy {
  /** A client object: properties, nested to any depth, down to functions and plain values.
      A function is told apart by what calling it does. */
  datatype Node = Properties(fields: map<string, Node>) | Function(effect: nat) | Plain

  const WRITE_VERBS: set<string> :=
    {"create", "createMany", "update", "updateMany", "upsert", "delete", "deleteMany",
     "$executeRaw", "$executeRawUnsafe", "$transaction"}

  /** What a property access yields: a throwing stub, another proxy, a bound function, a
      plain value, or nothing. */
  datatype Access = Stub | Wrapped(node: Node) | Bound(effect: nat) | Value | Undefined

  function Get(target: Node, prop: string): Access {
    if prop in WRITE_VERBS then Stub
    else if !target.Properties? || prop !in target.fields then Undefined
    else
      match target.fields[prop]
      case Properties(fields) => Wrapped(Properties(fields))
      case Function(effect) => Bound(effect)
      case Plain => Value
  }

  /** Following a chain of property names from a proxied object. */
  function Follow(target: Node, path: seq<string>): Access
    decreases |path|
  {
    if path == [] then Wrapped(target)
    else
      match Get(target, path[0])
      case Wrapped(node) => Follow(node, path[1..])
      case other => if |path| == 1 then other else Undefined
  }

  /** Following the same chain without the proxy. */
  function FollowRaw(target: Node, path: seq<string>): Access
    decreases |path|
  {
    if path == [] then Wrapped(target)
    else if !target.Properties? || path[0] !in target.fields then Undefined
    else
      match target.fields[path[0]]
      case Properties(fields) => FollowRaw(Properties(fields), path[1..])
      case Function(effect) => if |path| == 1 then Bound(effect) else Undefined
      case Plain => if |path| == 1 then Value else Undefined
  }

  /** A chain that names no write verb. */
  predicate Clean(path: seq<string>) {
    path == [] || (path[0] !in WRITE_VERBS && Clean(path[1..]))
  }

  /** The proxy, at any depth: without a write verb in it, a chain yields what it would
      without the proxy; with one anywhere in it, it yields nothing that runs. */
  lemma {:induction false} ProxyBlocksExactlyWriteVerbs(target: Node, path: seq<string>)
    ensures Clean(path) ==> Follow(target, path) == FollowRaw(target, path)
    ensures !Clean(path) ==> Follow(target, path).Stub? || Follow(target, path).Undefined?
    ensures Follow(target, path).Bound? ==> Clean(path)
    decreases |path|
  {
    assert |path| == 1 ==> path[1..] == [] && Clean(path[1..]);
    if path != [] && Get(target, path[0]).Wrapped? {
      ProxyBlocksExactlyWriteVerbs(Get(target, path[0]).node, path[1..]);
    }
  }

  /** A call on a model of a client: directly it runs the function; through the proxy it runs
      nothing for the ten write verbs and the same function for any other name. */
  lemma ModelCall(client: Node, model: string, verb: string, verbs: map<string, Node>, effect: nat)
    requires client.Properties? && model in client.fields && client.fields[model] == Properties(verbs)
    requires verb in verbs && verbs[verb] == Function(effect)
    ensures FollowRaw(client, [model, verb]) == Bound(effect)
    ensures model !in WRITE_VERBS ==>
              Follow(client, [model, verb])
              == if || verb == "create" || verb == "createMany" || verb == "update" || verb == "updateMany"
                    || verb == "upsert" || verb == "delete" || verb == "deleteMany"
                    || verb == "$executeRaw" || verb == "$executeRawUnsafe" || verb == "$transaction"
                 then Stub else Bound(effect)
  {
    assert [model, verb][1..] == [verb];
    assert [verb][1..] == [];
  }

  predicate Writes(access: Access, writes: set<nat>) {
    access.Bound? && access.effect in writes
  }

  /** A client whose writing functions are all reached under a write verb. */
  ghost predicate WritesAreNamed(target: Node, writes: set<nat>) {
    forall path :: Writes(FollowRaw(target, path), writes) ==> !Clean(path)
  }

  ghost predicate DryRunNeverWrites(target: Node, writes: set<nat>) {
    forall path :: !Writes(Follow(target, path), writes)
  }

  /** Dry-run safety: through the proxy nothing writes if and only if every writing function
      of the client is reached under a write verb. */
  lemma DryRunNeverWritesExactlyWhenNamed(target: Node, writes: set<nat>)
    ensures DryRunNeverWrites(target, writes) <==> WritesAreNamed(target, writes)
  {
    if WritesAreNamed(target, writes) {
      forall path ensures !Writes(Follow(target, path), writes) {
        ProxyBlocksExactlyWriteVerbs(target, path);
        assert Writes(FollowRaw(target, path), writes) ==> !Clean(path);
      }
    }
    if DryRunNeverWrites(target, writes) {
      forall path ensures Writes(FollowRaw(target, path), writes) ==> !Clean(path) {
        ProxyBlocksExactlyWriteVerbs(target, path);
        assert !Writes(Follow(target, path), writes);
      }
    }
  }
}

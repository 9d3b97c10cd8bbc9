/** What the paths of aliases through a written receipt lead to: every part of the
    capture's record under its own name. */
module ReceiptPaths {
  import opened Prelude
  import opened NodeFraming
  import opened Receipt

  /** The node reached from a digest by following aliases. */
  ghost function Walk<A>(c: Codec<A>, blobs: seq<string>, digest: string, path: seq<string>): Option<Node>
    decreases |path|
  {
    match ReadNode(c, blobs, digest)
    case Err(_) => None
    case Ok(n) =>
      if path == [] then Some(n)
      else
        match RefByAlias(n.refs, path[0])
        case None => None
        case Some(r) => Walk(c, blobs, r.digest, path[1..])
  }

  /** A node as it is read: its body ends in a newline. */
  function AsRead(n: Node): Node {
    n.(body := Normal(n.body))
  }

  /** A stored node with well-formed fields ends a path that reaches its digest. */
  lemma WalkEnds<A(!new)>(c: Codec<A>, blobs: seq<string>, n: Node)
    requires Lawful(c) && Blob(n) in blobs && WellFormed(n.typeString, n.refs)
    ensures Walk(c, blobs, DigestOf(c, n), []) == Some(AsRead(n))
  {
    ReadStored(c, blobs, n);
  }

  /** The first alias of a path leads from the node to the one its reference names. */
  lemma WalkOn<A(!new)>(c: Codec<A>, blobs: seq<string>, n: Node, i: nat, child: Node, rest: seq<string>)
    requires Lawful(c) && Blob(n) in blobs && WellFormed(n.typeString, n.refs)
    requires i < |n.refs| && n.refs[i].digest == DigestOf(c, child)
    requires forall j :: 0 <= j < i ==> n.refs[j].alias != n.refs[i].alias
    ensures Walk(c, blobs, DigestOf(c, n), [n.refs[i].alias] + rest) == Walk(c, blobs, DigestOf(c, child), rest)
  {
    ReadStored(c, blobs, n);
    FirstWithAlias(n.refs, i);
    assert ([n.refs[i].alias] + rest)[1..] == rest;
  }

  lemma FirstWithAlias(refs: seq<Ref>, i: nat)
    requires i < |refs| && forall j :: 0 <= j < i ==> refs[j].alias != refs[i].alias
    ensures RefByAlias(refs, refs[i].alias) == Some(refs[i])
  {
    var r := RefByAlias(refs, refs[i].alias);
    var k :| 0 <= k < |refs| && refs[k] == r.value && refs[k].alias == refs[i].alias
             && forall j :: 0 <= j < k ==> refs[j].alias != refs[i].alias;
    assert k == i;
  }

  /** The receipt's and the plugin's own parts can be read back. */
  ghost predicate Readable<A(!new)>(c: Codec<A>, p: ReceiptParams<A>) {
    && WellFormed(ReceiptType(p.kind), ReceiptNode(c, p).refs)
    && CleanType(p.pluginEnv.typeString)
    && (p.outcomePlugin.Some? ==> CleanType(p.outcomePlugin.value.typeString))
  }

  /** The JSON text of a value, as a node body. */
  function Json<A>(c: Codec<A>, body: Body<A>): Option<string> {
    if c.jcs(body).Some? then Some(EnsureNewline(c.jcs(body).value)) else None
  }

  lemma StoredAll<A>(c: Codec<A>, p: ReceiptParams<A>, blobs: seq<string>)
    requires WroteAll(c, p, blobs)
    ensures Blob(InvocationNode(c, p)) in blobs && Blob(HostNode(c, p)) in blobs && Blob(BinaryNode(c, p)) in blobs
    ensures Blob(PluginNode(c, p.pluginEnv)) in blobs && Blob(EnvironmentNode(c, p)) in blobs
    ensures Blob(OutcomeNode(c, p)) in blobs && Blob(IdentityNode(c, p)) in blobs && Blob(ReceiptNode(c, p)) in blobs
    ensures p.outcomePlugin.Some? ==> Blob(PluginNode(c, p.outcomePlugin.value)) in blobs
  {
    var nodes := ReceiptNodes(c, p);
    assert forall i :: 0 <= i < |nodes| ==> nodes[i] in nodes;
    NodesInOrder(c, p);
  }

  lemma CleanParts(a: string, b: string)
    requires a != "" && '\n' !in a && '\n' !in b && '@' !in a && '@' !in b
    ensures CleanType(a + b)
  {
    NoAt(a + b);
  }

  lemma CapturePrefixClean()
    ensures '\n' !in "jcs-cutting_garden-capture-" && '@' !in "jcs-cutting_garden-capture-"
  {
  }

  lemma HostTypeClean()
    ensures CleanType(TYPE_HOST)
  {
    CapturePrefixClean();
    assert TYPE_HOST == "jcs-cutting_garden-capture-" + "environment-host-v1";
    CleanParts("jcs-cutting_garden-capture-", "environment-host-v1");
  }

  lemma BinaryTypeClean()
    ensures CleanType(TYPE_BINARY)
  {
    CapturePrefixClean();
    assert TYPE_BINARY == "jcs-cutting_garden-capture-" + "environment-binary-v1";
    CleanParts("jcs-cutting_garden-capture-", "environment-binary-v1");
  }

  lemma EnvironmentWellFormed<A(!new)>(c: Codec<A>, p: ReceiptParams<A>)
    requires Lawful(c) && CleanType(p.pluginEnv.typeString)
    ensures WellFormed(TYPE_ENVIRONMENT, EnvironmentNode(c, p).refs)
  {
    EnvironmentTypeClean();
    LockedToNode(c, "host", HostNode(c, p)) by { HostTypeClean(); }
    LockedToNode(c, "binary", BinaryNode(c, p)) by { BinaryTypeClean(); }
    LockedToNode(c, "plugin", PluginNode(c, p.pluginEnv));
  }

  lemma LockedToNode<A(!new)>(c: Codec<A>, alias: string, n: Node)
    requires Lawful(c) && CleanType(n.typeString) && alias in ALIASES
    ensures WellFormedRef(LockedRef(c, alias, DigestOf(c, n), n.typeString))
  {
    LockedRefWellFormed(c, alias, DigestOf(c, n), n.typeString);
  }

  lemma OutcomeWellFormed<A(!new)>(c: Codec<A>, p: ReceiptParams<A>)
    requires Lawful(c) && Readable(c, p)
    ensures WellFormed(TYPE_OUTCOME, OutcomeNode(c, p).refs)
  {
    OutcomeTypeClean();
    if p.outcomePlugin.Some? {
      LockedRefWellFormed(c, "plugin", OutcomeNode(c, p).refs[0].digest, p.outcomePlugin.value.typeString);
    }
  }

  lemma AliasesDiffer()
    ensures "identity" != "outcome" && "invocation" != "environment"
    ensures "host" != "binary" && "host" != "plugin" && "binary" != "plugin"
  {
    assert "identity"[1] == 'd' && "outcome"[1] == 'u' && "invocation"[1] == 'n' && "environment"[0] == 'e';
    assert "host"[0] == 'h' && "binary"[0] == 'b' && "plugin"[0] == 'p';
  }

  /** From the receipt to its identity and to its outcome. */
  lemma ToIdentity<A(!new)>(c: Codec<A>, p: ReceiptParams<A>, blobs: seq<string>, rest: seq<string>)
    requires Lawful(c) && Readable(c, p) && WroteAll(c, p, blobs)
    ensures Walk(c, blobs, DigestOf(c, ReceiptNode(c, p)), ["identity"] + rest)
            == Walk(c, blobs, DigestOf(c, IdentityNode(c, p)), rest)
  {
    StoredAll(c, p, blobs);
    WalkOn(c, blobs, ReceiptNode(c, p), 0, IdentityNode(c, p), rest);
  }

  lemma ToOutcome<A(!new)>(c: Codec<A>, p: ReceiptParams<A>, blobs: seq<string>, rest: seq<string>)
    requires Lawful(c) && Readable(c, p) && WroteAll(c, p, blobs)
    ensures Walk(c, blobs, DigestOf(c, ReceiptNode(c, p)), ["outcome"] + rest)
            == Walk(c, blobs, DigestOf(c, OutcomeNode(c, p)), rest)
  {
    StoredAll(c, p, blobs);
    AliasesDiffer();
    WalkOn(c, blobs, ReceiptNode(c, p), 1, OutcomeNode(c, p), rest);
  }

  /** From the identity to the invocation and to the environment. */
  lemma IdentityToInvocation<A(!new)>(c: Codec<A>, p: ReceiptParams<A>, blobs: seq<string>, rest: seq<string>)
    requires Lawful(c) && WroteAll(c, p, blobs)
    ensures Walk(c, blobs, DigestOf(c, IdentityNode(c, p)), ["invocation"] + rest)
            == Walk(c, blobs, DigestOf(c, InvocationNode(c, p)), rest)
  {
    StoredAll(c, p, blobs);
    IdentityWellFormed(c, p);
    WalkOn(c, blobs, IdentityNode(c, p), 0, InvocationNode(c, p), rest);
  }

  lemma IdentityToEnvironment<A(!new)>(c: Codec<A>, p: ReceiptParams<A>, blobs: seq<string>, rest: seq<string>)
    requires Lawful(c) && WroteAll(c, p, blobs)
    ensures Walk(c, blobs, DigestOf(c, IdentityNode(c, p)), ["environment"] + rest)
            == Walk(c, blobs, DigestOf(c, EnvironmentNode(c, p)), rest)
  {
    StoredAll(c, p, blobs);
    IdentityWellFormed(c, p);
    AliasesDiffer();
    WalkOn(c, blobs, IdentityNode(c, p), 1, EnvironmentNode(c, p), rest);
  }

  /** A reference to a leaf leads to it as it was written. */
  lemma LeafPath<A(!new)>(c: Codec<A>, blobs: seq<string>, n: Node, i: nat, leaf: Node, body: Body<A>)
    requires Lawful(c) && Blob(n) in blobs && WellFormed(n.typeString, n.refs) && Blob(leaf) in blobs
    requires i < |n.refs| && n.refs[i].digest == DigestOf(c, leaf)
    requires forall j :: 0 <= j < i ==> n.refs[j].alias != n.refs[i].alias
    requires c.jcs(body).Some? && leaf == Node(leaf.typeString, [], Text(c, body)) && CleanType(leaf.typeString)
    ensures Walk(c, blobs, DigestOf(c, n), [n.refs[i].alias]) == Some(Node(leaf.typeString, [], Json(c, body)))
  {
    WalkOn(c, blobs, n, i, leaf, []);
    WalkEnds(c, blobs, leaf);
    assert [n.refs[i].alias] + [] == [n.refs[i].alias];
  }

  lemma EnvironmentPaths<A(!new)>(c: Codec<A>, p: ReceiptParams<A>, blobs: seq<string>)
    requires Lawful(c) && Readable(c, p) && EnvironmentMarshals(c, p) && WroteAll(c, p, blobs)
    ensures var env := DigestOf(c, EnvironmentNode(c, p));
            && Walk(c, blobs, env, ["host"]) == Some(Node(TYPE_HOST, [], Json(c, PluginDefined(p.host))))
            && Walk(c, blobs, env, ["binary"]) == Some(Node(TYPE_BINARY, [], Json(c, PluginDefined(p.binary))))
            && Walk(c, blobs, env, ["plugin"])
               == Some(Node(p.pluginEnv.typeString, [], Json(c, PluginDefined(p.pluginEnv.body))))
  {
    HostPath(c, p, blobs);
    BinaryPath(c, p, blobs);
    PluginPath(c, p, blobs);
  }

  lemma HostPath<A(!new)>(c: Codec<A>, p: ReceiptParams<A>, blobs: seq<string>)
    requires Lawful(c) && Readable(c, p) && EnvironmentMarshals(c, p) && WroteAll(c, p, blobs)
    ensures Walk(c, blobs, DigestOf(c, EnvironmentNode(c, p)), ["host"])
            == Some(Node(TYPE_HOST, [], Json(c, PluginDefined(p.host))))
  {
    StoredAll(c, p, blobs);
    EnvironmentWellFormed(c, p);
    HostTypeClean();
    LeafPath(c, blobs, EnvironmentNode(c, p), 0, HostNode(c, p), PluginDefined(p.host));
  }

  lemma BinaryPath<A(!new)>(c: Codec<A>, p: ReceiptParams<A>, blobs: seq<string>)
    requires Lawful(c) && Readable(c, p) && EnvironmentMarshals(c, p) && WroteAll(c, p, blobs)
    ensures Walk(c, blobs, DigestOf(c, EnvironmentNode(c, p)), ["binary"])
            == Some(Node(TYPE_BINARY, [], Json(c, PluginDefined(p.binary))))
  {
    StoredAll(c, p, blobs);
    EnvironmentWellFormed(c, p);
    BinaryTypeClean();
    AliasesDiffer();
    LeafPath(c, blobs, EnvironmentNode(c, p), 1, BinaryNode(c, p), PluginDefined(p.binary));
  }

  lemma PluginPath<A(!new)>(c: Codec<A>, p: ReceiptParams<A>, blobs: seq<string>)
    requires Lawful(c) && Readable(c, p) && EnvironmentMarshals(c, p) && WroteAll(c, p, blobs)
    ensures Walk(c, blobs, DigestOf(c, EnvironmentNode(c, p)), ["plugin"])
            == Some(Node(p.pluginEnv.typeString, [], Json(c, PluginDefined(p.pluginEnv.body))))
  {
    StoredAll(c, p, blobs);
    EnvironmentWellFormed(c, p);
    AliasesDiffer();
    LeafPath(c, blobs, EnvironmentNode(c, p), 2, PluginNode(c, p.pluginEnv), PluginDefined(p.pluginEnv.body));
  }

  /** A stored receipt tells each part of the environment apart: the host, the binary and
      the plugin's own record are found under their names, with their types and values. */
  lemma EnvironmentRead<A(!new)>(c: Codec<A>, p: ReceiptParams<A>, blobs: seq<string>)
    requires Lawful(c) && Readable(c, p) && EnvironmentMarshals(c, p) && WroteAll(c, p, blobs)
    ensures var receipt := DigestOf(c, ReceiptNode(c, p));
            && Walk(c, blobs, receipt, ["identity", "environment", "host"])
               == Some(Node(TYPE_HOST, [], Json(c, PluginDefined(p.host))))
            && Walk(c, blobs, receipt, ["identity", "environment", "binary"])
               == Some(Node(TYPE_BINARY, [], Json(c, PluginDefined(p.binary))))
            && Walk(c, blobs, receipt, ["identity", "environment", "plugin"])
               == Some(Node(p.pluginEnv.typeString, [], Json(c, PluginDefined(p.pluginEnv.body))))
  {
    EnvironmentPaths(c, p, blobs);
    ToEnvironment(c, p, blobs, "host");
    ToEnvironment(c, p, blobs, "binary");
    ToEnvironment(c, p, blobs, "plugin");
  }

  lemma ToEnvironment<A(!new)>(c: Codec<A>, p: ReceiptParams<A>, blobs: seq<string>, alias: string)
    requires Lawful(c) && Readable(c, p) && WroteAll(c, p, blobs)
    ensures Walk(c, blobs, DigestOf(c, ReceiptNode(c, p)), ["identity", "environment", alias])
            == Walk(c, blobs, DigestOf(c, EnvironmentNode(c, p)), [alias])
  {
    var rest := ["environment"] + [alias];
    ToIdentity(c, p, blobs, rest);
    IdentityToEnvironment(c, p, blobs, [alias]);
    assert ["identity", "environment", alias] == ["identity"] + rest;
  }

  /** So it does the invocation and the outcome, with the outcome's plugin record if and
      only if there was one. */
  lemma OutcomeRead<A(!new)>(c: Codec<A>, p: ReceiptParams<A>, blobs: seq<string>)
    requires Lawful(c) && Readable(c, p) && Marshals(c, p) && WroteAll(c, p, blobs)
    ensures var receipt := DigestOf(c, ReceiptNode(c, p));
            && Walk(c, blobs, receipt, ["outcome"]).Some?
            && Walk(c, blobs, receipt, ["outcome"]).value.typeString == TYPE_OUTCOME
            && Walk(c, blobs, receipt, ["outcome"]).value.body == Json(c, OutcomeBody(p.now, p.outcomeStripped))
            && Walk(c, blobs, receipt, ["outcome", "plugin"])
               == (match p.outcomePlugin
                   case None => None
                   case Some(env) => Some(Node(env.typeString, [], Json(c, PluginDefined(env.body)))))
  {
    StoredAll(c, p, blobs);
    OutcomeWellFormed(c, p);
    ToOutcome(c, p, blobs, []);
    ToOutcome(c, p, blobs, ["plugin"]);
    assert ["outcome"] + [] == ["outcome"] && ["outcome"] + ["plugin"] == ["outcome", "plugin"];
    WalkEnds(c, blobs, OutcomeNode(c, p));
    OutcomePlugin(c, p, blobs);
  }

  lemma OutcomePlugin<A(!new)>(c: Codec<A>, p: ReceiptParams<A>, blobs: seq<string>)
    requires Lawful(c) && Readable(c, p) && OutcomeMarshals(c, p) && WroteAll(c, p, blobs)
    ensures Walk(c, blobs, DigestOf(c, OutcomeNode(c, p)), ["plugin"])
            == match p.outcomePlugin
               case None => None
               case Some(env) => Some(Node(env.typeString, [], Json(c, PluginDefined(env.body))))
  {
    StoredAll(c, p, blobs);
    OutcomeWellFormed(c, p);
    match p.outcomePlugin
    case None => ReadStored(c, blobs, OutcomeNode(c, p));
    case Some(env) =>
      LeafPath(c, blobs, OutcomeNode(c, p), 0, PluginNode(c, env), PluginDefined(env.body));
  }

  /** The invocation is recorded as given, its options empty when it has none. */
  lemma InvocationRead<A(!new)>(c: Codec<A>, p: ReceiptParams<A>, blobs: seq<string>)
    requires Lawful(c) && Readable(c, p) && Marshals(c, p) && WroteAll(c, p, blobs)
    ensures var iv := p.invocation;
            Walk(c, blobs, DigestOf(c, ReceiptNode(c, p)), ["identity", "invocation"])
            == Some(Node(TYPE_INVOCATION, [],
                         Json(c, InvocationBody(iv.target, iv.format, iv.normalize,
                                                if iv.options.Some? then iv.options.value else c.emptyOptions))))
  {
    StoredAll(c, p, blobs);
    InvocationTypeClean();
    ToIdentity(c, p, blobs, ["invocation"]);
    IdentityToInvocation(c, p, blobs, []);
    assert ["identity"] + ["invocation"] == ["identity", "invocation"] && ["invocation"] + [] == ["invocation"];
    WalkEnds(c, blobs, InvocationNode(c, p));
  }
}

/** The receipt tree (receipt.go): a post-order Merkle writer over a generic
    blob writer, the walk that reads a receipt back (node_io.go), and the
    receipt type strings (types.go, parse.go). */
module Receipt {
  import opened Prelude
  import opened NodeFraming

  const TYPE_IDENTITY := "cutting_garden-capture-identity-v1"
  const TYPE_INVOCATION := "jcs-cutting_garden-capture-invocation-v1"
  const TYPE_ENVIRONMENT := "cutting_garden-capture-environment-v1"
  const TYPE_HOST := "jcs-cutting_garden-capture-environment-host-v1"
  const TYPE_BINARY := "jcs-cutting_garden-capture-environment-binary-v1"
  const TYPE_OUTCOME := "jcs-cutting_garden-capture-outcome-v1"

  /** The JSON values the writer marshals; `A` is any plugin-defined value. */
  datatype Body<A> =
    | InvocationBody(target: string, format: string, normalize: bool, options: A)
    | OutcomeBody(datetime: string, stripped: Option<A>)
    | PluginDefined(value: A)

  datatype Invocation<A> = Invocation(target: string, format: string, normalize: bool, options: Option<A>)

  datatype PluginEnv<A> = PluginEnv(typeString: string, body: A)

  datatype ReceiptParams<A> = ReceiptParams(
    kind: string, invocation: Invocation<A>, host: A, binary: A, pluginEnv: PluginEnv<A>,
    outcomeStripped: Option<A>, outcomePlugin: Option<PluginEnv<A>>, payloadRefs: seq<Ref>, now: string)

  /** The parts outside this model: the JCS marshaler (None is its error), the
      JSON decoder of invocation.format, the digest, and the type registry. */
  datatype Codec<!A> = Codec(
    jcs: Body<A> -> Option<string>, formatOf: string -> Option<string>,
    digest: string -> string, signature: string -> Option<string>, emptyOptions: A)

  ghost predicate Lawful<A(!new)>(c: Codec<A>) {
    && (forall x, y :: c.digest(x) == c.digest(y) ==> x == y)
    && (forall x :: '\n' !in c.digest(x) && !Contains(c.digest(x), " !"))
    && (forall t :: c.signature(t).Some? ==> '\n' !in c.signature(t).value)
    && (forall target, format, normalize, options ::
          c.jcs(InvocationBody(target, format, normalize, options)).Some? ==>
          c.formatOf(EnsureNewline(c.jcs(InvocationBody(target, format, normalize, options)).value)) == Some(format))
  }

  function InvocationBodyOf<A>(c: Codec<A>, iv: Invocation<A>): Body<A> {
    InvocationBody(iv.target, iv.format, iv.normalize, if iv.options.Some? then iv.options.value else c.emptyOptions)
  }

  function LockedRef<A>(c: Codec<A>, alias: string, digest: string, typeString: string): Ref {
    Ref(alias, digest, typeString, if c.signature(typeString).Some? then c.signature(typeString).value else "")
  }

  // ---- Receipt type strings ----

  const HYPHEN_PREFIX := "cutting_garden-capture-receipt-"
  const UNDERSCORE_PREFIX := "cutting_garden-capture_receipt-"
  const FLAT_FS_TAG := "cutting_garden-capture_receipt-fs-v1"

  function ReceiptType(kind: string): string {
    if kind == "git" || kind == "web" then HYPHEN_PREFIX + kind + "-v1"
    else UNDERSCORE_PREFIX + kind + "-v1"
  }

  /** strings.LastIndex(s, "-v"). */
  function LastDashV(s: string): (r: Option<nat>)
    ensures r.Some? ==> r.value + 2 <= |s|
  {
    if |s| < 2 then None
    else if s[|s| - 2..] == "-v" then Some(|s| - 2)
    else LastDashV(s[..|s| - 1])
  }

  predicate AllDigits(s: string) {
    forall c :: c in s ==> '0' <= c <= '9'
  }

  function SplitKindVersion(s: string): Option<(string, string)> {
    match LastDashV(s)
    case None => None
    case Some(i) =>
      var digits := s[i + 2..];
      if digits == "" || !AllDigits(digits) then None else Some((s[..i], digits))
  }

  function StripReceiptPrefix(typeString: string): Option<string> {
    if HasPrefix(typeString, HYPHEN_PREFIX) then Some(typeString[|HYPHEN_PREFIX|..])
    else if HasPrefix(typeString, UNDERSCORE_PREFIX) then Some(typeString[|UNDERSCORE_PREFIX|..])
    else None
  }

  function KindFromReceiptType(typeString: string): Option<string> {
    if typeString == FLAT_FS_TAG then None
    else
      match StripReceiptPrefix(typeString)
      case None => None
      case Some(rest) =>
        match SplitKindVersion(rest)
        case None => None
        case Some((kind, version)) => if kind == "" then None else Some(kind)
  }

  lemma SplitKind(kind: string)
    ensures SplitKindVersion(kind + "-v1") == Some((kind, "1"))
  {
    var s, t := kind + "-v1", kind + "-v";
    assert t[|t| - 2..] == "-v" && LastDashV(t) == Some(|kind|);
    assert s[|s| - 2..] == "v1" && s[..|s| - 1] == t;
    assert LastDashV(s) == Some(|kind|);
    assert s[|kind| + 2..] == "1" && s[..|kind|] == kind;
  }

  /** A written receipt type is read back as its kind exactly when the kind is
      neither empty nor "fs", whose tag belongs to the flat receipt. */
  lemma KindRoundTrip(kind: string)
    ensures KindFromReceiptType(ReceiptType(kind)) == Some(kind) <==> kind != "" && kind != "fs"
  {
    SplitKind(kind);
    PrefixStripped(kind);
    if kind == "git" || kind == "web" {
      PrefixesDiffer();
      assert ReceiptType(kind) == HYPHEN_PREFIX + (kind + "-v1");
    } else {
      UnderscoreTail(kind);
      assert ReceiptType(kind) == UNDERSCORE_PREFIX + (kind + "-v1");
    }
  }

  lemma PrefixStripped(kind: string)
    ensures StripReceiptPrefix(ReceiptType(kind)) == Some(kind + "-v1")
  {
    PrefixesDiffer();
    var tail := kind + "-v1";
    var prefix := if kind == "git" || kind == "web" then HYPHEN_PREFIX else UNDERSCORE_PREFIX;
    assert ReceiptType(kind) == prefix + tail;
    assert (prefix + tail)[|prefix|..] == tail;
  }

  lemma PrefixesDiffer()
    ensures forall t :: !HasPrefix(UNDERSCORE_PREFIX + t, HYPHEN_PREFIX)
    ensures forall t :: HYPHEN_PREFIX + t != FLAT_FS_TAG
  {
    assert HYPHEN_PREFIX[22] == '-' && UNDERSCORE_PREFIX[22] == '_' && FLAT_FS_TAG[22] == '_';
    forall t ensures !HasPrefix(UNDERSCORE_PREFIX + t, HYPHEN_PREFIX) && HYPHEN_PREFIX + t != FLAT_FS_TAG {
      assert (UNDERSCORE_PREFIX + t)[22] == '_' && (HYPHEN_PREFIX + t)[22] == '-';
    }
  }

  lemma UnderscoreTail(kind: string)
    ensures UNDERSCORE_PREFIX + (kind + "-v1") == FLAT_FS_TAG <==> kind == "fs"
  {
    var n := |UNDERSCORE_PREFIX|;
    assert FLAT_FS_TAG[n..] == "fs-v1" && FLAT_FS_TAG[..n] == UNDERSCORE_PREFIX;
    assert FLAT_FS_TAG == UNDERSCORE_PREFIX + "fs-v1";
    assert (UNDERSCORE_PREFIX + (kind + "-v1"))[n..] == kind + "-v1";
    assert (kind + "-v1")[..|kind|] == kind && "fs-v1"[..2] == "fs" && "fs" + "-v1" == "fs-v1";
  }

  /** The last "-v" starts at i exactly when none starts later. */
  lemma {:induction false} LastDashVExactly(s: string)
    ensures match LastDashV(s)
            case None => forall i :: !OccursAt(s, "-v", i)
            case Some(i) => OccursAt(s, "-v", i) && forall j :: j > i ==> !OccursAt(s, "-v", j)
    decreases |s|
  {
    if |s| >= 2 && s[|s| - 2..] != "-v" {
      var t := s[..|s| - 1];
      LastDashVExactly(t);
      forall i ensures OccursAt(s, "-v", i) <==> OccursAt(t, "-v", i) {
        if 0 <= i <= |t| - 2 {
          assert t[i..i + 2] == s[i..i + 2];
        }
      }
    }
  }

  /** Only a decimal version ends a receipt's kind. */
  ghost predicate Versioned(rest: string, kind: string) {
    exists digits :: digits != "" && AllDigits(digits) && rest == kind + "-v" + digits
  }

  lemma SplitExactly(rest: string, kind: string)
    ensures (SplitKindVersion(rest).Some? && SplitKindVersion(rest).value.0 == kind) <==> Versioned(rest, kind)
  {
    LastDashVExactly(rest);
    if digits :| digits != "" && AllDigits(digits) && rest == kind + "-v" + digits {
      LastVersion(rest, kind, digits);
    }
    if SplitKindVersion(rest).Some? && SplitKindVersion(rest).value.0 == kind {
      var i := LastDashV(rest).value;
      assert rest == rest[..i] + rest[i..i + 2] + rest[i + 2..];
    }
  }

  lemma LastVersion(rest: string, kind: string, digits: string)
    requires digits != "" && AllDigits(digits) && rest == kind + "-v" + digits
    ensures LastDashV(rest) == Some(|kind|) && rest[|kind| + 2..] == digits && rest[..|kind|] == kind
  {
    LastDashVExactly(rest);
    assert OccursAt(rest, "-v", |kind|);
    forall j | j > |kind| ensures !OccursAt(rest, "-v", j) {
      if j <= |rest| - 2 {
        assert rest[j] == if j == |kind| + 1 then 'v' else digits[j - |kind| - 2];
        assert j > |kind| + 1 ==> rest[j] in digits;
        assert rest[j..j + 2][0] == rest[j];
      }
    }
  }

  /** A type string names a kind exactly when it is one of the two prefixes, the kind,
      "-v" and a decimal version, and it is not the flat receipt's tag. */
  lemma KindExactly(typeString: string, kind: string)
    ensures KindFromReceiptType(typeString) == Some(kind) <==>
              && kind != "" && typeString != FLAT_FS_TAG
              && exists rest :: Versioned(rest, kind)
                   && (typeString == HYPHEN_PREFIX + rest || typeString == UNDERSCORE_PREFIX + rest)
  {
    PrefixesDiffer();
    forall rest | typeString == HYPHEN_PREFIX + rest || typeString == UNDERSCORE_PREFIX + rest
      ensures StripReceiptPrefix(typeString) == Some(rest) {
      assert (HYPHEN_PREFIX + rest)[|HYPHEN_PREFIX|..] == rest;
      assert (UNDERSCORE_PREFIX + rest)[|UNDERSCORE_PREFIX|..] == rest;
    }
    match StripReceiptPrefix(typeString)
    case None =>
    case Some(rest) =>
      SplitExactly(rest, kind);
      assert typeString == HYPHEN_PREFIX + rest || typeString == UNDERSCORE_PREFIX + rest;
  }

  // ---- The nodes of one receipt, in writing order ----

  function Blob(n: Node): string {
    Encoded(n.typeString, n.refs, n.body)
  }

  function DigestOf<A>(c: Codec<A>, n: Node): string {
    c.digest(Blob(n))
  }

  /** The node body for a value; marshalling errors are handled by the writer. */
  function Text<A>(c: Codec<A>, body: Body<A>): Option<string> {
    Some(if c.jcs(body).Some? then c.jcs(body).value else "")
  }

  function InvocationNode<A>(c: Codec<A>, p: ReceiptParams<A>): Node {
    Node(TYPE_INVOCATION, [], Text(c, InvocationBodyOf(c, p.invocation)))
  }

  function HostNode<A>(c: Codec<A>, p: ReceiptParams<A>): Node {
    Node(TYPE_HOST, [], Text(c, PluginDefined(p.host)))
  }

  function BinaryNode<A>(c: Codec<A>, p: ReceiptParams<A>): Node {
    Node(TYPE_BINARY, [], Text(c, PluginDefined(p.binary)))
  }

  function PluginNode<A>(c: Codec<A>, env: PluginEnv<A>): Node {
    Node(env.typeString, [], Text(c, PluginDefined(env.body)))
  }

  function EnvironmentNode<A>(c: Codec<A>, p: ReceiptParams<A>): Node {
    Node(TYPE_ENVIRONMENT, [
      LockedRef(c, "host", DigestOf(c, HostNode(c, p)), TYPE_HOST),
      LockedRef(c, "binary", DigestOf(c, BinaryNode(c, p)), TYPE_BINARY),
      LockedRef(c, "plugin", DigestOf(c, PluginNode(c, p.pluginEnv)), p.pluginEnv.typeString)], None)
  }

  function OutcomeNode<A>(c: Codec<A>, p: ReceiptParams<A>): Node {
    Node(TYPE_OUTCOME,
      match p.outcomePlugin
      case None => []
      case Some(env) => [LockedRef(c, "plugin", DigestOf(c, PluginNode(c, env)), env.typeString)],
      Text(c, OutcomeBody(p.now, p.outcomeStripped)))
  }

  function IdentityNode<A>(c: Codec<A>, p: ReceiptParams<A>): Node {
    Node(TYPE_IDENTITY, [
      LockedRef(c, "invocation", DigestOf(c, InvocationNode(c, p)), TYPE_INVOCATION),
      LockedRef(c, "environment", DigestOf(c, EnvironmentNode(c, p)), TYPE_ENVIRONMENT)], None)
  }

  function ReceiptNode<A>(c: Codec<A>, p: ReceiptParams<A>): Node {
    Node(ReceiptType(p.kind), [
      LockedRef(c, "identity", DigestOf(c, IdentityNode(c, p)), TYPE_IDENTITY),
      LockedRef(c, "outcome", DigestOf(c, OutcomeNode(c, p)), TYPE_OUTCOME)] + p.payloadRefs, None)
  }

  function ReceiptNodes<A>(c: Codec<A>, p: ReceiptParams<A>): seq<Node> {
    [InvocationNode(c, p), HostNode(c, p), BinaryNode(c, p), PluginNode(c, p.pluginEnv), EnvironmentNode(c, p)]
    + (if p.outcomePlugin.Some? then [PluginNode(c, p.outcomePlugin.value)] else [])
    + [OutcomeNode(c, p), IdentityNode(c, p), ReceiptNode(c, p)]
  }

  lemma NodesInOrder<A>(c: Codec<A>, p: ReceiptParams<A>)
    ensures var nodes := ReceiptNodes(c, p);
            var base := OutcomeAt(p);
            && |nodes| == base + 3
            && nodes[0] == InvocationNode(c, p) && nodes[1] == HostNode(c, p) && nodes[2] == BinaryNode(c, p)
            && nodes[3] == PluginNode(c, p.pluginEnv) && nodes[4] == EnvironmentNode(c, p)
            && (p.outcomePlugin.Some? ==> nodes[5] == PluginNode(c, p.outcomePlugin.value))
            && nodes[base] == OutcomeNode(c, p) && nodes[base + 1] == IdentityNode(c, p)
            && nodes[base + 2] == ReceiptNode(c, p)
  {
  }

  function Blobs(nodes: seq<Node>): seq<string> {
    seq(|nodes|, i requires 0 <= i < |nodes| => Blob(nodes[i]))
  }

  predicate EnvironmentMarshals<A>(c: Codec<A>, p: ReceiptParams<A>) {
    && c.jcs(PluginDefined(p.host)).Some? && c.jcs(PluginDefined(p.binary)).Some?
    && c.jcs(PluginDefined(p.pluginEnv.body)).Some?
  }

  predicate OutcomeMarshals<A>(c: Codec<A>, p: ReceiptParams<A>) {
    && c.jcs(OutcomeBody(p.now, p.outcomeStripped)).Some?
    && (p.outcomePlugin.Some? ==> c.jcs(PluginDefined(p.outcomePlugin.value.body)).Some?)
  }

  /** Every value of the receipt has a JSON form. */
  predicate Marshals<A>(c: Codec<A>, p: ReceiptParams<A>) {
    c.jcs(InvocationBodyOf(c, p.invocation)).Some? && EnvironmentMarshals(c, p) && OutcomeMarshals(c, p)
  }

  // ---- The writer ----

  /** A content-addressed store behind the Writer interface; `fails` says which
      write attempts return an error. */
  class BlobWriter {
    const digest: string -> string
    const fails: nat -> bool
    var blobs: seq<string>
    var attempts: nat

    constructor (digest: string -> string, fails: nat -> bool, blobs: seq<string>)
      ensures this.digest == digest && this.fails == fails && this.blobs == blobs && attempts == 0
    {
      this.digest := digest;
      this.fails := fails;
      this.blobs := blobs;
      attempts := 0;
    }

    method WriteNode(node: string) returns (digest: Option<string>)
      modifies this
      ensures digest == if fails(old(attempts)) then None else Some(this.digest(node))
      ensures blobs == if fails(old(attempts)) then old(blobs) else old(blobs) + [node]
      ensures attempts == old(attempts) + 1
    {
      attempts := attempts + 1;
      if fails(attempts - 1) {
        return None;
      }
      blobs := blobs + [node];
      return Some(this.digest(node));
    }
  }

  datatype WriteError = MarshalFailed | WriterFailed

  /** `blobs` extends `before` by the first `k` of `nodes`. */
  ghost predicate WrotePrefix(nodes: seq<Node>, before: seq<string>, blobs: seq<string>, k: nat) {
    k <= |nodes| && blobs == before + Blobs(nodes[..k])
  }

  /** A write that failed: a proper prefix of the tree was stored. */
  ghost predicate StoppedShort(nodes: seq<Node>, before: seq<string>, blobs: seq<string>) {
    exists k: nat :: k < |nodes| && WrotePrefix(nodes, before, blobs, k)
  }

  lemma WroteNext(nodes: seq<Node>, before: seq<string>, blobs: seq<string>, k: nat)
    requires k < |nodes| && WrotePrefix(nodes, before, blobs, k)
    ensures WrotePrefix(nodes, before, blobs + [Blob(nodes[k])], k + 1)
  {
  }

  /** Writes the `k`-th node of the tree and returns its digest. */
  method WriteTyped<A>(c: Codec<A>, w: BlobWriter, typeString: string, refs: seq<Ref>, body: Option<Body<A>>,
                       ghost nodes: seq<Node>, ghost before: seq<string>, ghost k: nat)
    returns (digest: Result<string, WriteError>)
    requires w.digest == c.digest && WrotePrefix(nodes, before, w.blobs, k) && k < |nodes|
    requires nodes[k] == Node(typeString, refs, if body.Some? then Text(c, body.value) else None)
    modifies w
    ensures digest.Err? ==> w.blobs == old(w.blobs)
    ensures digest.Ok? ==> WrotePrefix(nodes, before, w.blobs, k + 1)
    ensures digest.Ok? ==> digest.value == DigestOf(c, nodes[k])
    ensures digest.Ok? && body.Some? ==> c.jcs(body.value).Some?
  {
    var text := None;
    if body.Some? {
      text := c.jcs(body.value);
      if text.None? {
        return Err(MarshalFailed);
      }
    }
    var node := EncodeNode(typeString, refs, text);
    var written := w.WriteNode(node);
    if written.None? {
      return Err(WriterFailed);
    }
    WroteNext(nodes, before, old(w.blobs), k);
    return Ok(written.value);
  }

  /** The environment subtree: host, binary and plugin nodes, then their parent. */
  method WriteEnvironment<A>(c: Codec<A>, w: BlobWriter, p: ReceiptParams<A>, ghost nodes: seq<Node>,
                             ghost before: seq<string>)
    returns (env: Result<string, WriteError>)
    requires w.digest == c.digest && nodes == ReceiptNodes(c, p) && WrotePrefix(nodes, before, w.blobs, 1)
    modifies w
    ensures env.Err? ==> StoppedShort(nodes, before, w.blobs)
    ensures env.Ok? ==> WrotePrefix(nodes, before, w.blobs, 5) && env.value == DigestOf(c, EnvironmentNode(c, p))
    ensures env.Ok? ==> EnvironmentMarshals(c, p)
  {
    NodesInOrder(c, p);
    var host := WriteTyped(c, w, TYPE_HOST, [], Some(PluginDefined(p.host)), nodes, before, 1);
    if host.Err? { return Err(host.error); }
    var binary := WriteTyped(c, w, TYPE_BINARY, [], Some(PluginDefined(p.binary)), nodes, before, 2);
    if binary.Err? { return Err(binary.error); }
    var plugin := WriteTyped(c, w, p.pluginEnv.typeString, [], Some(PluginDefined(p.pluginEnv.body)), nodes, before, 3);
    if plugin.Err? { return Err(plugin.error); }
    var envRefs := [
      LockedRef(c, "host", host.value, TYPE_HOST),
      LockedRef(c, "binary", binary.value, TYPE_BINARY),
      LockedRef(c, "plugin", plugin.value, p.pluginEnv.typeString)];
    env := WriteTyped(c, w, TYPE_ENVIRONMENT, envRefs, None, nodes, before, 4);
  }

  method WriteReceipt<A>(c: Codec<A>, w: BlobWriter, p: ReceiptParams<A>) returns (receipt: Result<string, WriteError>)
    requires w.digest == c.digest
    modifies w
    ensures receipt.Err? ==> StoppedShort(ReceiptNodes(c, p), old(w.blobs), w.blobs)
    ensures receipt.Ok? ==> WrotePrefix(ReceiptNodes(c, p), old(w.blobs), w.blobs, |ReceiptNodes(c, p)|)
    ensures receipt.Ok? ==> receipt.value == DigestOf(c, ReceiptNode(c, p))
    ensures receipt.Ok? ==> Marshals(c, p)
  {
    ghost var before, nodes := w.blobs, ReceiptNodes(c, p);
    NodesInOrder(c, p);
    assert WrotePrefix(nodes, before, w.blobs, 0) by { assert Blobs(nodes[..0]) == []; }
    var inv := WriteTyped(c, w, TYPE_INVOCATION, [], Some(InvocationBodyOf(c, p.invocation)), nodes, before, 0);
    if inv.Err? { return Err(inv.error); }
    var env := WriteEnvironment(c, w, p, nodes, before);
    if env.Err? { return Err(env.error); }
    var out := WriteOutcome(c, w, p, nodes, before);
    if out.Err? { return Err(out.error); }
    receipt := WriteRoot(c, w, p, inv.value, env.value, out.value, nodes, before);
  }

  /** The outcome's position among the nodes. */
  function OutcomeAt<A>(p: ReceiptParams<A>): nat {
    if p.outcomePlugin.Some? then 6 else 5
  }

  /** The outcome, after its plugin's node when it has one. */
  method WriteOutcome<A>(c: Codec<A>, w: BlobWriter, p: ReceiptParams<A>, ghost nodes: seq<Node>,
                         ghost before: seq<string>)
    returns (out: Result<string, WriteError>)
    requires w.digest == c.digest && nodes == ReceiptNodes(c, p) && WrotePrefix(nodes, before, w.blobs, 5)
    modifies w
    ensures out.Err? ==> StoppedShort(nodes, before, w.blobs)
    ensures out.Ok? ==>
              WrotePrefix(nodes, before, w.blobs, OutcomeAt(p) + 1) && out.value == DigestOf(c, OutcomeNode(c, p))
    ensures out.Ok? ==> OutcomeMarshals(c, p)
  {
    NodesInOrder(c, p);
    var refs := [];
    if p.outcomePlugin.Some? {
      var env := p.outcomePlugin.value;
      var po := WriteTyped(c, w, env.typeString, [], Some(PluginDefined(env.body)), nodes, before, 5);
      if po.Err? { return Err(po.error); }
      refs := [LockedRef(c, "plugin", po.value, env.typeString)];
    }
    var body := OutcomeBody(p.now, p.outcomeStripped);
    out := WriteTyped(c, w, TYPE_OUTCOME, refs, Some(body), nodes, before, OutcomeAt(p));
  }

  /** The identity and the receipt over it. */
  method WriteRoot<A>(c: Codec<A>, w: BlobWriter, p: ReceiptParams<A>, inv: string, env: string, out: string,
                      ghost nodes: seq<Node>, ghost before: seq<string>)
    returns (receipt: Result<string, WriteError>)
    requires w.digest == c.digest && nodes == ReceiptNodes(c, p)
    requires WrotePrefix(nodes, before, w.blobs, OutcomeAt(p) + 1)
    requires inv == DigestOf(c, InvocationNode(c, p)) && env == DigestOf(c, EnvironmentNode(c, p))
    requires out == DigestOf(c, OutcomeNode(c, p))
    modifies w
    ensures receipt.Err? ==> StoppedShort(nodes, before, w.blobs)
    ensures receipt.Ok? ==>
              WrotePrefix(nodes, before, w.blobs, |nodes|) && receipt.value == DigestOf(c, ReceiptNode(c, p))
  {
    NodesInOrder(c, p);
    var idRefs := [
      LockedRef(c, "invocation", inv, TYPE_INVOCATION),
      LockedRef(c, "environment", env, TYPE_ENVIRONMENT)];
    var id := WriteTyped(c, w, TYPE_IDENTITY, idRefs, None, nodes, before, OutcomeAt(p) + 1);
    if id.Err? { return Err(id.error); }
    var refs := [
      LockedRef(c, "identity", id.value, TYPE_IDENTITY),
      LockedRef(c, "outcome", out, TYPE_OUTCOME)];
    receipt := WriteTyped(c, w, ReceiptType(p.kind), refs + p.payloadRefs, None, nodes, before, OutcomeAt(p) + 2);
  }

  // ---- Closure ----

  /** Some blob of `blobs` has this digest. */
  ghost predicate Resolves<A>(c: Codec<A>, blobs: seq<string>, digest: string) {
    exists b :: b in blobs && c.digest(b) == digest
  }

  /** The reference holds the node's digest, its type, and the type's signature if it has one. */
  predicate Names<A>(c: Codec<A>, r: Ref, n: Node) {
    && r.digest == DigestOf(c, n) && r.typeString == n.typeString
    && (match c.signature(n.typeString)
        case Some(sig) => r.sig == sig
        case None => r.sig == "")
  }

  lemma LockedNames<A>(c: Codec<A>, alias: string, n: Node)
    ensures Names(c, LockedRef(c, alias, DigestOf(c, n), n.typeString), n)
  {
  }

  /** Each of a node's own references names a node written before it. */
  lemma NodeRefsResolve<A>(c: Codec<A>, p: ReceiptParams<A>, i: nat, r: Ref) returns (j: nat)
    requires i < |ReceiptNodes(c, p)| && r in ReceiptNodes(c, p)[i].refs && r !in p.payloadRefs
    ensures j < i && Names(c, r, ReceiptNodes(c, p)[j])
  {
    NodesInOrder(c, p);
    var base := OutcomeAt(p);
    if i == 4 {
      j := EnvironmentRefs(c, p, r);
    } else if i == base {
      j := 5;
      LockedNames(c, "plugin", PluginNode(c, p.outcomePlugin.value));
    } else if i == base + 1 {
      j := IdentityRefs(c, p, r);
    } else {
      j := ReceiptRefs(c, p, r);
      j := base + j;
    }
  }

  lemma IdentityRefs<A>(c: Codec<A>, p: ReceiptParams<A>, r: Ref) returns (j: nat)
    requires r in IdentityNode(c, p).refs
    ensures (j == 0 && Names(c, r, InvocationNode(c, p))) || (j == 4 && Names(c, r, EnvironmentNode(c, p)))
  {
    LockedNames(c, "invocation", InvocationNode(c, p));
    LockedNames(c, "environment", EnvironmentNode(c, p));
    j := if r == IdentityNode(c, p).refs[0] then 0 else 4;
  }

  lemma ReceiptRefs<A>(c: Codec<A>, p: ReceiptParams<A>, r: Ref) returns (j: nat)
    requires r in ReceiptNode(c, p).refs && r !in p.payloadRefs
    ensures (j == 0 && Names(c, r, OutcomeNode(c, p))) || (j == 1 && Names(c, r, IdentityNode(c, p)))
  {
    LockedNames(c, "identity", IdentityNode(c, p));
    LockedNames(c, "outcome", OutcomeNode(c, p));
    j := if r == ReceiptNode(c, p).refs[0] then 1 else 0;
  }

  lemma EnvironmentRefs<A>(c: Codec<A>, p: ReceiptParams<A>, r: Ref) returns (j: nat)
    requires r in EnvironmentNode(c, p).refs
    ensures 1 <= j <= 3 && Names(c, r, [HostNode(c, p), BinaryNode(c, p), PluginNode(c, p.pluginEnv)][j - 1])
  {
    LockedNames(c, "host", HostNode(c, p));
    LockedNames(c, "binary", BinaryNode(c, p));
    LockedNames(c, "plugin", PluginNode(c, p.pluginEnv));
    var refs := EnvironmentNode(c, p).refs;
    j := if r == refs[0] then 1 else if r == refs[1] then 2 else 3;
  }

  /** At any point of a receipt's writing, finished or cut short, every reference
      of every node it wrote resolves to a blob stored before that node. */
  lemma TreeClosed<A>(c: Codec<A>, p: ReceiptParams<A>, before: seq<string>, blobs: seq<string>, k: nat, i: nat, r: Ref)
    requires WrotePrefix(ReceiptNodes(c, p), before, blobs, k) && i < k
    requires forall q :: q in p.payloadRefs ==> Resolves(c, before, q.digest)
    requires r in ReceiptNodes(c, p)[i].refs
    ensures blobs[|before| + i] == Blob(ReceiptNodes(c, p)[i])
    ensures var n := ReceiptNodes(c, p)[i];
            WellFormed(n.typeString, n.refs) ==> Parsed(blobs[|before| + i]) == Ok(n.(body := Normal(n.body)))
    ensures Resolves(c, blobs[..|before| + i], r.digest)
  {
    var nodes := ReceiptNodes(c, p);
    RoundTrip(nodes[i].typeString, nodes[i].refs, nodes[i].body);
    BlobAt(nodes, before, blobs, k, i);
    if r in p.payloadRefs {
      var b :| b in before && c.digest(b) == r.digest;
      var x :| 0 <= x < |before| && before[x] == b;
      assert blobs[x] == blobs[..|before|][x];
      ResolvesEarlier(c, blobs, |before| + i, x);
    } else {
      var j := NodeRefsResolve(c, p, i, r);
      BlobAt(nodes, before, blobs, k, j);
      ResolvesEarlier(c, blobs, |before| + i, |before| + j);
    }
  }

  lemma BlobAt(nodes: seq<Node>, before: seq<string>, blobs: seq<string>, k: nat, j: nat)
    requires WrotePrefix(nodes, before, blobs, k) && j < k
    ensures |before| + j < |blobs| && blobs[|before| + j] == Blob(nodes[j]) && blobs[..|before|] == before
  {
    assert blobs[|before| + j] == Blobs(nodes[..k])[j];
  }

  lemma ResolvesEarlier<A>(c: Codec<A>, blobs: seq<string>, n: nat, x: nat)
    requires x < n <= |blobs|
    ensures Resolves(c, blobs[..n], c.digest(blobs[x]))
  {
    assert blobs[..n][x] == blobs[x];
  }

  // ---- Reading a receipt back ----

  datatype ReadError = NoIdentityRef | NoInvocationRef | NoBlob | BadNode(e: ParseError) | BadBody | NoFormat

  function RefByAlias(refs: seq<Ref>, alias: string): (r: Option<Ref>)
    ensures r.None? <==> forall x :: x in refs ==> x.alias != alias
    ensures r.Some? ==> exists i :: 0 <= i < |refs| && refs[i] == r.value && refs[i].alias == alias
                                    && forall j :: 0 <= j < i ==> refs[j].alias != alias
  {
    if refs == [] then None
    else if refs[0].alias == alias then Some(refs[0])
    else
      var r := RefByAlias(refs[1..], alias);
      assert r.Some? ==> exists i :: 0 <= i < |refs[1..]| && refs[1..][i] == r.value && refs[i + 1] == r.value
                                     && forall j :: 0 <= j < i ==> refs[1..][j].alias != alias;
      r
  }

  ghost function ReadNode<A>(c: Codec<A>, blobs: seq<string>, digest: string): Result<Node, ReadError> {
    if Resolves(c, blobs, digest) then
      var b :| b in blobs && c.digest(b) == digest;
      match Parsed(b)
      case Err(e) => Err(BadNode(e))
      case Ok(n) => Ok(n)
    else Err(NoBlob)
  }

  ghost function FormatFromReceipt<A>(c: Codec<A>, blobs: seq<string>, receipt: Node): Result<string, ReadError> {
    match RefByAlias(receipt.refs, "identity")
    case None => Err(NoIdentityRef)
    case Some(idRef) =>
      match ReadNode(c, blobs, idRef.digest)
      case Err(e) => Err(e)
      case Ok(identity) =>
        match RefByAlias(identity.refs, "invocation")
        case None => Err(NoInvocationRef)
        case Some(invRef) =>
          match ReadNode(c, blobs, invRef.digest)
          case Err(e) => Err(e)
          case Ok(inv) =>
            match c.formatOf(if inv.body.Some? then inv.body.value else "")
            case None => Err(BadBody)
            case Some(format) => if format == "" then Err(NoFormat) else Ok(format)
  }

  /** Reading a stored node parses its own blob. */
  lemma ReadParses<A(!new)>(c: Codec<A>, blobs: seq<string>, n: Node)
    requires Lawful(c) && Blob(n) in blobs
    ensures ReadNode(c, blobs, DigestOf(c, n))
            == match Parsed(Blob(n)) case Err(e) => Err(BadNode(e)) case Ok(m) => Ok(m)
  {
    assert Resolves(c, blobs, DigestOf(c, n));
  }

  /** A stored node with well-formed fields is read back by its digest. */
  lemma ReadStored<A(!new)>(c: Codec<A>, blobs: seq<string>, n: Node)
    requires Lawful(c) && Blob(n) in blobs && WellFormed(n.typeString, n.refs)
    ensures ReadNode(c, blobs, DigestOf(c, n)) == Ok(n.(body := Normal(n.body)))
  {
    ReadParses(c, blobs, n);
    RoundTrip(n.typeString, n.refs, n.body);
  }

  lemma NoAt(s: string)
    requires '@' !in s
    ensures !Contains(s, "@")
  {
    forall i | 0 <= i <= |s| - 1 ensures !OccursAt(s, "@", i) {
      assert s[i..i + 1][0] == s[i];
    }
  }

  ghost predicate CleanType(t: string) {
    t != "" && '\n' !in t && !Contains(t, "@")
  }

  lemma InvocationTypeClean()
    ensures CleanType(TYPE_INVOCATION)
  {
    NoAt(TYPE_INVOCATION);
  }

  lemma EnvironmentTypeClean()
    ensures CleanType(TYPE_ENVIRONMENT)
  {
    NoAt(TYPE_ENVIRONMENT);
  }

  lemma IdentityTypeClean()
    ensures CleanType(TYPE_IDENTITY)
  {
    NoAt(TYPE_IDENTITY);
  }

  lemma OutcomeTypeClean()
    ensures CleanType(TYPE_OUTCOME)
  {
    NoAt(TYPE_OUTCOME);
  }

  const ALIASES := ["identity", "invocation", "environment", "outcome", "host", "binary", "plugin"]

  lemma NoSeparator(alias: string)
    requires alias in ALIASES
    ensures '\n' !in alias && !Contains(alias, " < @")
  {
    forall i | 0 <= i <= |alias| - 4 ensures !OccursAt(alias, " < @", i) {
      assert alias[i..i + 4][0] == alias[i] != ' ';
    }
  }

  lemma LockedRefWellFormed<A(!new)>(c: Codec<A>, alias: string, digest: string, typeString: string)
    requires Lawful(c) && CleanType(typeString)
    requires alias in ALIASES
    requires exists b :: digest == c.digest(b)
    ensures WellFormedRef(LockedRef(c, alias, digest, typeString))
  {
    NoSeparator(alias);
  }

  lemma IdentityWellFormed<A(!new)>(c: Codec<A>, p: ReceiptParams<A>)
    requires Lawful(c)
    ensures WellFormed(TYPE_IDENTITY, IdentityNode(c, p).refs)
  {
    InvocationTypeClean();
    EnvironmentTypeClean();
    IdentityTypeClean();
    var refs := IdentityNode(c, p).refs;
    LockedRefWellFormed(c, "invocation", refs[0].digest, TYPE_INVOCATION);
    LockedRefWellFormed(c, "environment", refs[1].digest, TYPE_ENVIRONMENT);
  }

  lemma IdentityRefWellFormed<A(!new)>(c: Codec<A>, p: ReceiptParams<A>)
    requires Lawful(c)
    ensures WellFormedRef(ReceiptNode(c, p).refs[0])
  {
    IdentityTypeClean();
    LockedRefWellFormed(c, "identity", ReceiptNode(c, p).refs[0].digest, TYPE_IDENTITY);
  }

  /** The receipt's fields are well formed whenever its kind and payloads are. */
  lemma ReceiptWellFormed<A(!new)>(c: Codec<A>, p: ReceiptParams<A>)
    requires Lawful(c)
    ensures WellFormed(ReceiptType(p.kind), ReceiptNode(c, p).refs)
            <==> '\n' !in p.kind && forall q :: q in p.payloadRefs ==> WellFormedRef(q)
  {
    OutcomeTypeClean();
    IdentityRefWellFormed(c, p);
    var refs := ReceiptNode(c, p).refs;
    LockedRefWellFormed(c, "outcome", refs[1].digest, TYPE_OUTCOME);
    assert refs[2..] == p.payloadRefs;
    assert forall q :: q in p.payloadRefs ==> q in refs;
    ReceiptTypeClean(p.kind);
  }

  lemma ReceiptTypeClean(kind: string)
    ensures ReceiptType(kind) != "" && ('\n' in ReceiptType(kind) <==> '\n' in kind)
  {
  }

  ghost predicate WroteAll<A>(c: Codec<A>, p: ReceiptParams<A>, blobs: seq<string>) {
    forall n :: n in ReceiptNodes(c, p) ==> Blob(n) in blobs
  }

  /** A finished write leaves the whole tree in the store. */
  lemma FinishedWroteAll<A>(c: Codec<A>, p: ReceiptParams<A>, before: seq<string>, blobs: seq<string>)
    requires WrotePrefix(ReceiptNodes(c, p), before, blobs, |ReceiptNodes(c, p)|)
    ensures WroteAll(c, p, blobs)
  {
    var nodes := ReceiptNodes(c, p);
    forall n | n in nodes ensures Blob(n) in blobs {
      var i :| 0 <= i < |nodes| && nodes[i] == n;
      assert blobs[|before| + i] == Blobs(nodes[..|nodes|])[i] == Blob(n);
    }
  }

  /** From any store that holds the written tree: the receipt reads back as written
      exactly when its fields are well formed; and however it reads, the walk
      receipt -> identity -> invocation recovers the invocation's format, or reports
      that it is empty. */
  lemma ReadBack<A(!new)>(c: Codec<A>, p: ReceiptParams<A>, blobs: seq<string>)
    requires Lawful(c) && c.jcs(InvocationBodyOf(c, p.invocation)).Some? && WroteAll(c, p, blobs)
    ensures var written := ReceiptNode(c, p); var receipt := ReadNode(c, blobs, DigestOf(c, written));
            && (receipt == Ok(written) <==> WellFormed(written.typeString, written.refs))
            && (receipt.Ok? ==>
                  FormatFromReceipt(c, blobs, receipt.value)
                  == if p.invocation.format == "" then Err(NoFormat) else Ok(p.invocation.format))
  {
    var nodes, written := ReceiptNodes(c, p), ReceiptNode(c, p);
    assert forall i :: 0 <= i < |nodes| ==> nodes[i] in nodes;
    NodesInOrder(c, p);
    ReadParses(c, blobs, written);
    RoundTrip(written.typeString, written.refs, written.body);
    if ReadNode(c, blobs, DigestOf(c, written)).Ok? {
      IdentityRefWellFormed(c, p);
      FirstRefKept(written.typeString, written.refs, written.body);
      WalkFromIdentity(c, p, blobs, Parsed(Blob(written)).value);
    }
  }

  /** The walk from any receipt whose first reference is the identity's. */
  lemma WalkFromIdentity<A(!new)>(c: Codec<A>, p: ReceiptParams<A>, blobs: seq<string>, receipt: Node)
    requires Lawful(c) && c.jcs(InvocationBodyOf(c, p.invocation)).Some? && WroteAll(c, p, blobs)
    requires receipt.refs != [] && receipt.refs[0] == ReceiptNode(c, p).refs[0]
    ensures FormatFromReceipt(c, blobs, receipt)
            == if p.invocation.format == "" then Err(NoFormat) else Ok(p.invocation.format)
  {
    var nodes := ReceiptNodes(c, p);
    assert forall i :: 0 <= i < |nodes| ==> nodes[i] in nodes;
    NodesInOrder(c, p);
    InvocationTypeClean();
    IdentityWellFormed(c, p);
    ReadStored(c, blobs, IdentityNode(c, p));
    ReadStored(c, blobs, InvocationNode(c, p));
    FirstIsFound(receipt.refs);
    FirstIsFound(IdentityNode(c, p).refs);
  }

  lemma FirstIsFound(refs: seq<Ref>)
    requires refs != []
    ensures RefByAlias(refs, refs[0].alias) == Some(refs[0])
  {
  }
}

/** Semantic identities: their normal form, the IDs built from it, and what makes those IDs unambiguous. */
module Identity {
  import opened Telemetry
  import opened Spans
  import opened TracePaths

  /** Lower case and white space, which the runtime takes from Unicode; only ASCII is fixed here. */
  datatype Letters = Letters(lower: char -> char, space: char -> bool) {
    ghost predicate Lawful() {
      && (forall c :: c as int < 128 ==> lower(c) == if 'A' <= c <= 'Z' then (c as int + 32) as char else c)
      && (forall c :: c as int < 128 ==> (space(c) <==> c == ' ' || 9 <= c as int <= 13))
    }

    /** Lowering a lower-case letter changes nothing, and lowering makes no white space and takes none away. */
    ghost predicate Folds() {
      forall c :: lower(lower(c)) == lower(c) && (space(lower(c)) <==> space(c))
    }
  }

  // ---- strings ------------------------------------------------------------------------------------------

  function Index(s: string, c: char): (i: nat)
    ensures i <= |s| && (forall k :: 0 <= k < i ==> s[k] != c) && (i < |s| ==> s[i] == c)
  {
    if s == "" || s[0] == c then 0 else 1 + Index(s[1..], c)
  }

  /** `strings.Split` by one character. */
  function Split(s: string, c: char): (parts: seq<string>)
    ensures parts != [] && forall k :: 0 <= k < |parts| ==> c !in parts[k]
    decreases |s|
  {
    var i := Index(s, c);
    if i == |s| then [s] else [s[..i]] + Split(s[i + 1..], c)
  }

  /** `strings.Join` by one character. */
  function Join(parts: seq<string>, c: char): string {
    if parts == [] then "" else if |parts| == 1 then parts[0] else parts[0] + [c] + Join(parts[1..], c)
  }

  lemma JoinTwo(head: string, parts: seq<string>, c: char)
    requires parts != []
    ensures Join([head] + parts, c) == head + [c] + Join(parts, c)
  {
    assert ([head] + parts)[1..] == parts;
  }

  lemma {:induction false} JoinOfSplit(s: string, c: char)
    ensures Join(Split(s, c), c) == s
    decreases |s|
  {
    hide Join;
    var i := Index(s, c);
    if i == |s| {
      JoinOne(s, c);
    } else {
      var rest := s[i + 1..];
      JoinOfSplit(rest, c);
      assert s == s[..i] + [c] + rest;
      JoinTwo(s[..i], Split(rest, c), c);
    }
  }

  lemma JoinOne(s: string, c: char)
    ensures Join([s], c) == s
  {}

  lemma SplitHead(part: string, rest: string, c: char)
    requires c !in part
    ensures Split(part + [c] + rest, c) == [part] + Split(rest, c)
  {
    var s, i := part + [c] + rest, |part|;
    assert s[..i] == part && s[i] == c && s[i + 1..] == rest;
    IndexIs(s, c, i);
  }

  /** Lists of strings that do not contain the separator, and are not empty, can be told apart when joined. */
  lemma {:induction false} SplitOfJoin(parts: seq<string>, c: char)
    requires parts != [] && forall k :: 0 <= k < |parts| ==> c !in parts[k]
    ensures Split(Join(parts, c), c) == parts
  {
    if |parts| == 1 {
      assert parts[0][..|parts[0]|] == parts[0];
      IndexIs(parts[0], c, |parts[0]|);
    } else {
      hide Split;
      SplitOfJoin(parts[1..], c);
      SplitHead(parts[0], Join(parts[1..], c), c);
      assert parts == [parts[0]] + parts[1..];
    }
  }

  lemma IndexIs(s: string, c: char, i: nat)
    requires i <= |s| && c !in s[..i] && (i < |s| ==> s[i] == c)
    ensures Index(s, c) == i
  {
    forall k | 0 <= k < i ensures s[k] != c { assert s[k] == s[..i][k]; }
  }

  function TrimLeft(s: string, p: char -> bool): string {
    if s != "" && p(s[0]) then TrimLeft(s[1..], p) else s
  }

  function TrimRight(s: string, p: char -> bool): string {
    if s != "" && p(s[|s| - 1]) then TrimRight(s[..|s| - 1], p) else s
  }

  /** `strings.TrimFunc`. */
  function Trim(s: string, p: char -> bool): string {
    TrimRight(TrimLeft(s, p), p)
  }

  function Lowered(l: Letters, s: string): (r: string)
    ensures |r| == |s|
  {
    seq(|s|, k requires 0 <= k < |s| => l.lower(s[k]))
  }

  // ---- the normal form ------------------------------------------------------------------------------------

  predicate Allowed(c: char) {
    'a' <= c <= 'z' || '0' <= c <= '9' || c == '.' || c == '_' || c == '/' || c == '-'
  }

  /** The regular expression of the source: each run of other characters becomes one dash. */
  function Dashed(s: string): string {
    if s == "" then ""
    else if Allowed(s[0]) then [s[0]] + Dashed(s[1..])
    else (if |s| > 1 && !Allowed(s[1]) then "" else "-") + Dashed(s[1..])
  }

  function IsDash(): char -> bool {
    (c: char) => c == '-'
  }

  /** What becomes of one part between colons. */
  function CleanPart(l: Letters, part: string): string {
    Trim(Dashed(Trim(part, l.space)), IsDash())
  }

  function CleanParts(l: Letters, parts: seq<string>): seq<string> {
    if parts == [] then []
    else
      var part := CleanPart(l, parts[|parts| - 1]);
      CleanParts(l, parts[..|parts| - 1]) + (if part == "" then [] else [part])
  }

  function Normalize(l: Letters, value: string): string {
    Join(CleanParts(l, Split(Lowered(l, Trim(value, l.space)), ':')), ':')
  }

  /** `NormalizeSemanticIdentity`. */
  method NormalizeSemanticIdentity(l: Letters, value: string) returns (r: string)
    ensures r == Normalize(l, value)
  {
    var parts := Split(Lowered(l, Trim(value, l.space)), ':');
    var normalized := [];
    for i := 0 to |parts|
      invariant normalized == CleanParts(l, parts[..i])
    {
      assert parts[..i + 1][..i] == parts[..i];
      var part := CleanPart(l, parts[i]);
      if part != "" { normalized := normalized + [part]; }
    }
    assert parts[..|parts|] == parts;
    r := Join(normalized, ':');
  }

  /** A character that may stand beside a colon or at an end. */
  predicate Edge(c: char) {
    Allowed(c) && c != '-'
  }

  /** Normal identities: allowed characters in parts separated by single colons, no part with a dash at an end. */
  ghost predicate Normal(s: string) {
    && (forall k :: 0 <= k < |s| ==> Allowed(s[k]) || s[k] == ':')
    && (s != "" ==> Edge(s[0]) && Edge(s[|s| - 1]))
    && (forall k :: 0 <= k < |s| - 1 ==> (s[k] == ':' ==> Edge(s[k + 1])) && (s[k + 1] == ':' ==> Edge(s[k])))
  }

  /** A part of a normal identity. */
  ghost predicate Clean(part: string) {
    part != "" && Normal(part) && ':' !in part
  }

  lemma NormalJoins(a: string, b: string)
    requires Normal(a) && Normal(b) && a != "" && b != ""
    ensures Normal(a + ":" + b)
  {
    var s := a + ":" + b;
    forall k | 0 <= k < |s| - 1 ensures (s[k] == ':' ==> Edge(s[k + 1])) && (s[k + 1] == ':' ==> Edge(s[k])) {
      if k > |a| { assert s[k] == b[k - |a| - 1] && s[k + 1] == b[k - |a|]; }
    }
  }

  lemma {:induction false} JoinNormal(parts: seq<string>)
    requires forall k :: 0 <= k < |parts| ==> Clean(parts[k])
    ensures Normal(Join(parts, ':')) && (parts != [] ==> Join(parts, ':') != "")
  {
    if |parts| > 1 {
      JoinNormal(parts[1..]);
      NormalJoins(parts[0], Join(parts[1..], ':'));
    }
  }

  lemma {:induction false} DashedAllowed(s: string)
    ensures forall k :: 0 <= k < |Dashed(s)| ==> Allowed(Dashed(s)[k])
  {
    if s != "" { DashedAllowed(s[1..]); }
  }

  lemma {:induction false} TrimLeftSpec(s: string, p: char -> bool)
    ensures exists i :: 0 <= i <= |s| && TrimLeft(s, p) == s[i..]
    ensures TrimLeft(s, p) != "" ==> !p(TrimLeft(s, p)[0])
  {
    if s != "" && p(s[0]) {
      TrimLeftSpec(s[1..], p);
      var i :| 0 <= i <= |s[1..]| && TrimLeft(s[1..], p) == s[1..][i..];
      assert s[1..][i..] == s[i + 1..];
    } else {
      assert s[0..] == s;
    }
  }

  lemma {:induction false} TrimRightSpec(s: string, p: char -> bool)
    ensures TrimRight(s, p) <= s
    ensures TrimRight(s, p) != "" ==> !p(TrimRight(s, p)[|TrimRight(s, p)| - 1])
  {
    if s != "" && p(s[|s| - 1]) { TrimRightSpec(s[..|s| - 1], p); }
  }

  /** Every cleaned part is clean or empty. */
  lemma CleanPartIs(l: Letters, part: string)
    ensures CleanPart(l, part) == "" || Clean(CleanPart(l, part))
  {
    DashedAllowed(Trim(part, l.space));
    TrimmedClean(Dashed(Trim(part, l.space)));
  }

  lemma CleanIs(part: string)
    requires part != "" && (forall k :: 0 <= k < |part| ==> Allowed(part[k])) && part[0] != '-' && part[|part| - 1] != '-'
    ensures Clean(part)
  {
    assert forall k :: 0 <= k < |part| ==> part[k] != ':';
  }

  lemma PartAllowed(d: string, i: nat, part: string)
    requires i <= |d| && part <= d[i..] && forall k :: 0 <= k < |d| ==> Allowed(d[k])
    ensures forall k :: 0 <= k < |part| ==> Allowed(part[k])
  {
    hide Allowed;
    forall k | 0 <= k < |part| ensures Allowed(part[k]) { assert part[k] == d[i..][k]; }
  }

  lemma TrimmedClean(d: string)
    requires forall k :: 0 <= k < |d| ==> Allowed(d[k])
    ensures Trim(d, IsDash()) == "" || Clean(Trim(d, IsDash()))
  {
    hide TrimLeft, TrimRight, Allowed, Clean;
    var left := TrimLeft(d, IsDash());
    var part := TrimRight(left, IsDash());
    TrimLeftSpec(d, IsDash());
    TrimRightSpec(left, IsDash());
    var i: nat :| i <= |d| && left == d[i..];
    PartAllowed(d, i, part);
    if part != "" {
      assert part[0] == left[0];
      CleanIs(part);
    }
  }

  lemma {:induction false} CleanPartsAre(l: Letters, parts: seq<string>)
    ensures forall k :: 0 <= k < |CleanParts(l, parts)| ==> Clean(CleanParts(l, parts)[k])
  {
    if parts != [] {
      CleanPartsAre(l, parts[..|parts| - 1]);
      CleanPartIs(l, parts[|parts| - 1]);
    }
  }

  /** The result is normal. */
  lemma NormalizeNormal(l: Letters, value: string)
    ensures Normal(Normalize(l, value))
  {
    var parts := Split(Lowered(l, Trim(value, l.space)), ':');
    CleanPartsAre(l, parts);
    JoinNormal(CleanParts(l, parts));
  }

  lemma {:induction false} DashedKeeps(s: string)
    requires forall k :: 0 <= k < |s| ==> Allowed(s[k])
    ensures Dashed(s) == s
  {
    if s != "" { DashedKeeps(s[1..]); }
  }

  lemma TrimKeeps(s: string, p: char -> bool)
    requires s != "" ==> !p(s[0]) && !p(s[|s| - 1])
    ensures Trim(s, p) == s
  {}

  lemma CleanPartKeeps(l: Letters, part: string)
    requires l.Lawful() && Clean(part)
    ensures CleanPart(l, part) == part
  {
    TrimKeeps(part, l.space);
    DashedKeeps(part);
    TrimKeeps(part, IsDash());
  }

  lemma {:induction false} CleanPartsKeep(l: Letters, parts: seq<string>)
    requires l.Lawful() && forall k :: 0 <= k < |parts| ==> Clean(parts[k])
    ensures CleanParts(l, parts) == parts
  {
    hide CleanPart, Normal;
    if parts != [] {
      CleanPartsKeep(l, parts[..|parts| - 1]);
      CleanPartKeeps(l, parts[|parts| - 1]);
    }
  }

  /** The parts of a normal identity are clean. */
  lemma {:induction false} SplitNormal(s: string)
    requires Normal(s) && s != ""
    ensures forall k :: 0 <= k < |Split(s, ':')| ==> Clean(Split(s, ':')[k])
    decreases |s|
  {
    var i := Index(s, ':');
    if i < |s| {
      assert Clean(s[..i]) by { assert s[i - 1 + 1] == ':'; }
      var rest := s[i + 1..];
      forall k | 0 <= k < |rest| - 1 ensures (rest[k] == ':' ==> Edge(rest[k + 1])) && (rest[k + 1] == ':' ==> Edge(rest[k])) {
        assert rest[k] == s[i + 1 + k] && rest[k + 1] == s[i + 1 + k + 1];
      }
      SplitNormal(rest);
    }
  }

  lemma LoweredKeeps(l: Letters, s: string)
    requires l.Lawful() && Normal(s)
    ensures Lowered(l, s) == s
  {}

  /** The normal identities are exactly those that normalization leaves alone. */
  lemma NormalIffKept(l: Letters, s: string)
    requires l.Lawful()
    ensures Normal(s) <==> Normalize(l, s) == s
  {
    hide Split, Join, CleanParts;
    NormalizeNormal(l, s);
    if Normal(s) {
      TrimKeeps(s, l.space);
      LoweredKeeps(l, s);
      if s == "" {
        NormalizeNothing(l);
      } else {
        SplitNormal(s);
        CleanPartsKeep(l, Split(s, ':'));
        JoinOfSplit(s, ':');
      }
    }
  }

  lemma NormalizeNothing(l: Letters)
    ensures Normalize(l, "") == ""
  {
    var parts := Split("", ':');
    assert Lowered(l, Trim("", l.space)) == "" && parts == [""];
    assert CleanPart(l, "") == "";
    assert parts[..|parts| - 1] == [] && CleanParts(l, []) == [];
    assert CleanParts(l, parts) == [];
  }

  /** Normalizing twice is normalizing once. */
  lemma NormalizeIdempotent(l: Letters, value: string)
    requires l.Lawful()
    ensures Normalize(l, Normalize(l, value)) == Normalize(l, value)
  {
    NormalizeNormal(l, value);
    NormalIffKept(l, Normalize(l, value));
  }

  // ---- node IDs ---------------------------------------------------------------------------------------------

  /** `StableNodeID`. */
  method StableNodeID(l: Letters, kind: string, identity: string, framework: string) returns (id: string)
    requires l.Lawful()
    ensures id == NodeID(l, kind, identity, framework) && id != ""
    ensures Normal(id) <==> Normalize(l, kind) != ""
    ensures Normalize(l, kind) != "" ==> Normalize(l, id) == id
  {
    hide Normalize, Normal;
    var normalizedKind := NormalizeSemanticIdentity(l, kind);
    id := NormalizeSemanticIdentity(l, identity);
    if id == "" { id := "unknown"; }
    if id != normalizedKind && !(normalizedKind + ":" <= id) { id := normalizedKind + ":" + id; }
    var normalizedFramework := NormalizeSemanticIdentity(l, framework);
    if normalizedFramework != "" && !(normalizedFramework + ":" <= id) { id := normalizedFramework + ":" + id; }
    NodeIDNormal(l, kind, identity, framework);
    NormalIffKept(l, id);
  }

  function Known(identity: string): string {
    if identity == "" then "unknown" else identity
  }

  /** A string with a prefix and a colon, unless it has them already or, where that is enough, is the prefix. */
  function Under(prefix: string, s: string): string {
    if prefix + ":" <= s then s else prefix + ":" + s
  }

  function NodeID(l: Letters, kind: string, identity: string, framework: string): string {
    var k, i, f := Normalize(l, kind), Known(Normalize(l, identity)), Normalize(l, framework);
    var id := if i == k then i else Under(k, i);
    if f == "" then id else Under(f, id)
  }

  lemma UnknownNormal()
    ensures Normal("unknown")
  {}

  lemma NoColonFirst(i: string)
    requires Normal(i) && i != ""
    ensures !("" + ":" <= i) && "" + ":" == ":" && !Normal(":" + i)
  {
    assert i[0] != ':' && (":" + i)[0] == ':';
  }

  lemma TwoColons(f: string, i: string)
    requires Normal(f) && f != ""
    ensures !Normal(f + ":" + (":" + i)) && !(f + ":" <= ":" + i)
  {
    assert (f + ":")[0] == f[0] != ':';
    var s := f + ":" + (":" + i);
    assert s[|f|] == ':' && s[|f| + 1] == ':';
  }

  /** The kind stands at the head of a text, alone or with a colon. */
  ghost predicate Heads(prefix: string, s: string) {
    s == prefix || prefix + ":" <= s
  }

  /**
   * A node ID is the normalized identity, "unknown" if it has none; with the kind in front, unless the identity is the kind or
   * begins with it; and with the framework, if there is one, in front of that, unless it begins with it already.
   */
  lemma NodeIDIs(l: Letters, kind: string, identity: string, framework: string)
    ensures var k, f, id := Normalize(l, kind), Normalize(l, framework), NodeID(l, kind, identity, framework);
            var i := if Normalize(l, identity) == "" then "unknown" else Normalize(l, identity);
            && (Heads(k, i) && (f == "" || f + ":" <= i) ==> id == i)
            && (Heads(k, i) && f != "" && !(f + ":" <= i) ==> id == f + ":" + i)
            && (!Heads(k, i) && (f == "" || f + ":" <= k + ":" + i) ==> id == k + ":" + i)
            && (!Heads(k, i) && f != "" && !(f + ":" <= k + ":" + i) ==> id == f + ":" + (k + ":" + i))
  {
    hide Normalize;
  }

  /** Node IDs are normal exactly when their kind does not normalize to nothing. */
  lemma NodeIDNormal(l: Letters, kind: string, identity: string, framework: string)
    ensures NodeID(l, kind, identity, framework) != ""
    ensures Normal(NodeID(l, kind, identity, framework)) <==> Normalize(l, kind) != ""
  {
    hide Normalize, Normal;
    var k, i, f := Normalize(l, kind), Known(Normalize(l, identity)), Normalize(l, framework);
    NormalizeNormal(l, kind);
    NormalizeNormal(l, identity);
    NormalizeNormal(l, framework);
    UnknownNormal();
    var id := if i == k then i else Under(k, i);
    if k != "" {
      if id != i { NormalJoins(k, i); }
      if f != "" { NormalJoins(f, id); }
    } else {
      NoColonFirst(i);
      assert id == ":" + i;
      if f != "" { TwoColons(f, i); }
    }
  }

  /** `attributeStringValue`. */
  function AttributeText(s: Span, key: string, fallback: string): string {
    if key !in s.attributes then fallback
    else match s.attributes[key]
      case Text(text) => text
      case Numeric(_, printed) => printed
      case Flag(flag) => if flag then "true" else "false"
  }

  function Framework(s: Span): string {
    if "nodeflow.framework" in s.attributes && s.attributes["nodeflow.framework"].Text? then s.attributes["nodeflow.framework"].text else ""
  }

  /** How the runtime names spans. */
  function RuntimeNaming(l: Letters): Naming {
    Naming((s: Span) => NodeID(l, s.kind, AttributeText(s, "nodeflow.identity", s.name), Framework(s)), (name: string) => Normalize(l, name))
  }

  /** A word of allowed characters that does not begin or end with a dash is normal. */
  lemma WordNormal(s: string)
    requires s != "" && Edge(s[0]) && Edge(s[|s| - 1]) && forall k :: 0 <= k < |s| ==> Allowed(s[k])
    ensures Normal(s)
  {}

  lemma KindsNormal(kind: string)
    requires kind in TOPOLOGY_KINDS
    ensures Normal(kind) && kind != ""
  {
    hide Normal;
    WordNormal(kind);
  }

  /** Every node ID of the engine is normal and not empty. */
  lemma NodesNormal(l: Letters, s: Span)
    requires l.Lawful() && NodeOf(RuntimeNaming(l), s).Some?
    ensures Normal(NodeOf(RuntimeNaming(l), s).value) && NodeOf(RuntimeNaming(l), s).value != ""
  {
    hide Normalize, Normal, NodeID;
    KindsNormal(s.kind);
    NormalIffKept(l, s.kind);
    NodeIDNormal(l, s.kind, AttributeText(s, "nodeflow.identity", s.name), Framework(s));
  }

  // ---- edge and path IDs ----------------------------------------------------------------------------------------

  /** `StableEdgeID`. */
  function StableEdgeID(source: string, target: string): string {
    "dependency:" + source + "->" + target
  }

  /** Edge IDs tell normal node IDs apart. */
  lemma EdgeIDsInjective(a: string, b: string, c: string, d: string)
    requires Normal(a) && Normal(b) && Normal(c) && Normal(d) && StableEdgeID(a, b) == StableEdgeID(c, d)
    ensures a == c && b == d
  {
    hide Normal, Index;
    Cancel("dependency:", a + "->" + b, c + "->" + d);
    assert "dependency:" + a + "->" + b == "dependency:" + (a + "->" + b);
    assert "dependency:" + c + "->" + d == "dependency:" + (c + "->" + d);
    ArrowAt(a, b);
    ArrowAt(c, d);
    Ends(a, "->", b);
    Ends(c, "->", d);
  }

  lemma Cancel(prefix: string, a: string, b: string)
    requires prefix + a == prefix + b
    ensures a == b
  {
    assert (prefix + a)[|prefix|..] == a && (prefix + b)[|prefix|..] == b;
  }

  lemma Ends(a: string, between: string, b: string)
    ensures (a + between + b)[..|a|] == a && (a + between + b)[|a| + |between|..] == b
  {}

  lemma ArrowAt(a: string, b: string)
    requires Normal(a)
    ensures Index(a + "->" + b, '>') == |a| + 1
  {
    assert (a + "->" + b)[..|a| + 1] == a + "-";
    IndexIs(a + "->" + b, '>', |a| + 1);
  }

  /** The key by which the source tells node chains apart. */
  function ChainText(nodes: seq<string>): string {
    Join(nodes, '>')
  }

  ghost predicate AllNormal(nodes: seq<string>) {
    forall k :: 0 <= k < |nodes| ==> Normal(nodes[k]) && nodes[k] != ""
  }

  lemma ChainSplits(nodes: seq<string>)
    requires AllNormal(nodes) && nodes != []
    ensures Split(ChainText(nodes), '>') == nodes
  {
    SplitOfJoin(nodes, '>');
  }

  /** Chains of node IDs can be told apart by their text. */
  lemma ChainsInjective(a: seq<string>, b: seq<string>)
    requires AllNormal(a) && AllNormal(b) && ChainText(a) == ChainText(b)
    ensures a == b
  {
    if a != [] { ChainSplits(a); }
    if b != [] { ChainSplits(b); }
    if a == [] && b != [] { JoinLonger(b); }
    if b == [] && a != [] { JoinLonger(a); }
  }

  lemma JoinLonger(nodes: seq<string>)
    requires AllNormal(nodes) && nodes != []
    ensures ChainText(nodes) != ""
  {}

  /** The text that the source hashes for a path ID. */
  function PathText(p: PathKey): string {
    p.entrypoint + ":" + ChainText(p.nodes)
  }

  /** Two paths have the same text exactly if the part up to the first node and the further nodes agree. */
  lemma PathTextsAgree(p: PathKey, q: PathKey)
    requires Normal(p.entrypoint) && Normal(q.entrypoint) && AllNormal(p.nodes) && AllNormal(q.nodes) && p.nodes != [] && q.nodes != []
    ensures PathText(p) == PathText(q) <==>
      p.entrypoint + ":" + p.nodes[0] == q.entrypoint + ":" + q.nodes[0] && p.nodes[1..] == q.nodes[1..]
  {
    var a, b := [p.entrypoint + ":" + p.nodes[0]] + p.nodes[1..], [q.entrypoint + ":" + q.nodes[0]] + q.nodes[1..];
    Headed(p);
    Headed(q);
    SplitOfJoin(a, '>');
    SplitOfJoin(b, '>');
    if PathText(p) == PathText(q) {
      assert a == b;
      assert a[0] == b[0] && a[1..] == b[1..];
    }
  }

  lemma Headed(p: PathKey)
    requires Normal(p.entrypoint) && AllNormal(p.nodes) && p.nodes != []
    ensures PathText(p) == Join([p.entrypoint + ":" + p.nodes[0]] + p.nodes[1..], '>')
    ensures '>' !in p.entrypoint + ":" + p.nodes[0] && forall k :: 1 <= k < |p.nodes| ==> '>' !in p.nodes[k]
  {
    var a := [p.entrypoint + ":" + p.nodes[0]] + p.nodes[1..];
    assert a[1..] == p.nodes[1..];
  }

  /** For one entrypoint the text determines the path. */
  lemma PathsOfEntryInjective(p: PathKey, q: PathKey)
    requires Normal(p.entrypoint) && AllNormal(p.nodes) && AllNormal(q.nodes) && p.entrypoint == q.entrypoint && PathText(p) == PathText(q)
    ensures p == q
  {
    var n := |p.entrypoint| + 1;
    assert PathText(p)[n..] == ChainText(p.nodes) && PathText(q)[n..] == ChainText(q.nodes);
    ChainsInjective(p.nodes, q.nodes);
  }

  const PLAIN_SPAN := Span("t", "s", "", "get:x", "service", 0.0, 0.0, "ok", map["nodeflow.identity" := Text("a")])
  const FRAMED_SPAN := PLAIN_SPAN.(name := "get", attributes := map["nodeflow.identity" := Text("a"), "nodeflow.framework" := Text("x")])

  /**
   * Across entrypoints it does not, for spans that the engine can receive: an entry span `get:x` of service `a`, and an
   * entry span `get` of service `a` of framework `x`, start different paths with the same text.
   */
  lemma PathTextsCollide(l: Letters)
    requires l.Lawful()
    ensures var n := RuntimeNaming(l);
            var p, q := PathKey(n.entry(PLAIN_SPAN.name), [n.node(PLAIN_SPAN)]), PathKey(n.entry(FRAMED_SPAN.name), [n.node(FRAMED_SPAN)]);
            && PLAIN_SPAN.kind in ENTRY_KINDS && FRAMED_SPAN.kind in ENTRY_KINDS
            && p != q && PathText(p) == PathText(q)
  {
    hide Normalize, Normal;
    Kept(l);
    NodesAre(l);
    SameText();
  }

  lemma Kept(l: Letters)
    requires l.Lawful()
    ensures Normalize(l, "service") == "service" && Normalize(l, "a") == "a" && Normalize(l, "x") == "x"
    ensures Normalize(l, "get:x") == "get:x" && Normalize(l, "get") == "get" && Normalize(l, "") == ""
  {
    KindsNormal("service");
    FewNormal();
    hide Normal, Normalize;
    NormalJoins("get", "x");
    NormalizeNothing(l);
    assert "get" + ":" + "x" == "get:x";
    NormalIffKept(l, "service");
    NormalIffKept(l, "a");
    NormalIffKept(l, "x");
    NormalIffKept(l, "get:x");
    NormalIffKept(l, "get");
  }

  lemma NodesAre(l: Letters)
    requires Normalize(l, "service") == "service" && Normalize(l, "a") == "a" && Normalize(l, "x") == "x" && Normalize(l, "") == ""
    ensures RuntimeNaming(l).node(PLAIN_SPAN) == "service:a" && RuntimeNaming(l).node(FRAMED_SPAN) == "x:service:a"
  {
    hide Normalize;
    assert AttributeText(PLAIN_SPAN, "nodeflow.identity", "get:x") == "a" && Framework(PLAIN_SPAN) == "";
    assert AttributeText(FRAMED_SPAN, "nodeflow.identity", "get") == "a" && Framework(FRAMED_SPAN) == "x";
    assert "service" + ":" + "a" == "service:a";
    assert ("x" + ":")[0] != "service:a"[0];
    assert "x" + ":" + "service:a" == "x:service:a";
  }

  lemma SameText()
    ensures "get:x" + ":" + "service:a" == "get" + ":" + "x:service:a" && "get:x" != "get"
  {}

  lemma FewNormal()
    ensures Normal("get") && Normal("x") && Normal("a")
  {}
}

/**
 Web Access Control rule matching (src/authz/acl.rs, with the mode IRIs of src/authz/mode.rs).

 The loops over the triple list are proved to compute `Modes`, a definition over the *set* of
 triples; the laws of access control are then stated about `Modes`.
 */
module WacRules {
  import opened Text

  datatype AccessMode = Read | Write | Append | Control
  datatype Node = Named(iri: string) | Blank(id: string)
  datatype Term = NamedNode(iri: string) | BlankNode(id: string) | Literal(text: string)
  datatype Triple = Triple(subject: Node, pred: string, obj: Term)
  datatype AclScope = AccessTo | Default
  datatype Requester = Requester(webId: Option<string>, origin: Option<string>)

  const ACL: string := "http://www.w3.org/ns/auth/acl#"
  const RDF_TYPE: string := "http://www.w3.org/1999/02/22-rdf-syntax-ns#type"
  const FOAF_AGENT: string := "http://xmlns.com/foaf/0.1/Agent"

  function AclIri(local: string): string { ACL + local }

  function ModeOfIri(iri: string): Option<AccessMode> {
    if iri == AclIri("Read") then Some(Read)
    else if iri == AclIri("Write") then Some(Write)
    else if iri == AclIri("Append") then Some(Append)
    else if iri == AclIri("Control") then Some(Control)
    else None
  }

  // --- The declarative definition --------------------------------------------------------------

  type Graph = set<Triple>

  predicate Says(g: Graph, s: Node, p: string, o: string) { Triple(s, p, NamedNode(o)) in g }

  predicate InScope(g: Graph, rule: Node, resource: string, scope: AclScope) {
    match scope
    case AccessTo => Says(g, rule, AclIri("accessTo"), resource)
    case Default => Says(g, rule, AclIri("default"), resource) || Says(g, rule, AclIri("defaultForNew"), resource)
  }

  predicate ForAgent(g: Graph, rule: Node, who: Requester) {
    || Says(g, rule, AclIri("agentClass"), FOAF_AGENT)
    || (who.webId.Some? && Says(g, rule, AclIri("agentClass"), AclIri("AuthenticatedAgent")))
    || (who.webId.Some? && Says(g, rule, AclIri("agent"), who.webId.value))
  }

  predicate IsOriginOf(t: Triple, rule: Node) {
    t.subject == rule && t.pred == AclIri("origin") && t.obj.NamedNode?
  }

  predicate FromOrigin(g: Graph, rule: Node, who: Requester) {
    || (forall t :: t in g ==> !IsOriginOf(t, rule))
    || (who.origin.Some? && Says(g, rule, AclIri("origin"), who.origin.value))
  }

  predicate ListsMode(g: Graph, rule: Node, mode: AccessMode) {
    exists t :: t in g && t.subject == rule && t.pred == AclIri("mode") && t.obj.NamedNode?
                && ModeOfIri(t.obj.iri) == Some(mode)
  }

  /** One authorization meets all four clauses. */
  predicate RuleGrants(g: Graph, rule: Node, resource: string, who: Requester, scope: AclScope, mode: AccessMode) {
    && Says(g, rule, RDF_TYPE, AclIri("Authorization"))
    && InScope(g, rule, resource, scope)
    && ForAgent(g, rule, who)
    && FromOrigin(g, rule, who)
    && ListsMode(g, rule, mode)
  }

  function Subjects(g: Graph): set<Node> { set t | t in g :: t.subject }

  const ALL_MODES: set<AccessMode> := {Read, Write, Append, Control}

  predicate Granted(g: Graph, resource: string, who: Requester, scope: AclScope, mode: AccessMode) {
    exists rule :: rule in Subjects(g) && RuleGrants(g, rule, resource, who, scope, mode)
  }

  function Modes(g: Graph, resource: string, who: Requester, scope: AclScope): set<AccessMode> {
    set mode | mode in ALL_MODES && Granted(g, resource, who, scope, mode)
  }

  // --- The code --------------------------------------------------------------------------------

  function GraphOf(triples: seq<Triple>): Graph { set t | t in triples }

  method AuthorizationSubjects(triples: seq<Triple>) returns (subjects: seq<Node>)
    ensures forall s :: s in subjects <==> Says(GraphOf(triples), s, RDF_TYPE, AclIri("Authorization"))
    ensures forall i, j :: 0 <= i < j < |subjects| ==> subjects[i] != subjects[j]
  {
    subjects := [];
    for k := 0 to |triples|
      invariant forall s :: s in subjects <==> Triple(s, RDF_TYPE, NamedNode(AclIri("Authorization"))) in triples[..k]
      invariant forall i, j :: 0 <= i < j < |subjects| ==> subjects[i] != subjects[j]
    {
      var t := triples[k];
      assert triples[..k + 1] == triples[..k] + [t];
      if t.pred == RDF_TYPE && t.obj.NamedNode? {
        if t.obj.iri == AclIri("Authorization") && t.subject !in subjects {
          subjects := subjects + [t.subject];
        }
      }
    }
    assert triples[..|triples|] == triples;
  }

  method NamedObjects(triples: seq<Triple>, subject: Node, pred: string) returns (out: seq<string>)
    ensures forall o :: o in out <==> Says(GraphOf(triples), subject, pred, o)
  {
    out := [];
    for k := 0 to |triples|
      invariant forall o :: o in out <==> Triple(subject, pred, NamedNode(o)) in triples[..k]
    {
      var t := triples[k];
      assert triples[..k + 1] == triples[..k] + [t];
      if t.subject == subject && t.pred == pred && t.obj.NamedNode? {
        out := out + [t.obj.iri];
      }
    }
    assert triples[..|triples|] == triples;
  }

  method AppliesToResource(triples: seq<Triple>, rule: Node, resource: string, scope: AclScope) returns (ok: bool)
    ensures ok == InScope(GraphOf(triples), rule, resource, scope)
  {
    var preds :=
      match scope
      case AccessTo => [AclIri("accessTo")]
      case Default => [AclIri("default"), AclIri("defaultForNew")];
    for i := 0 to |preds|
      invariant forall k :: 0 <= k < i ==> !Says(GraphOf(triples), rule, preds[k], resource)
    {
      var objects := NamedObjects(triples, rule, preds[i]);
      if resource in objects { return true; }
    }
    assert preds[0] == (if scope == AccessTo then AclIri("accessTo") else AclIri("default"));
    assert scope == Default ==> preds[1] == AclIri("defaultForNew");
    return false;
  }

  method MatchesAgent(triples: seq<Triple>, rule: Node, who: Requester) returns (ok: bool)
    ensures ok == ForAgent(GraphOf(triples), rule, who)
  {
    var classes := NamedObjects(triples, rule, AclIri("agentClass"));
    for i := 0 to |classes|
      invariant forall k :: 0 <= k < i ==>
        classes[k] != FOAF_AGENT && !(classes[k] == AclIri("AuthenticatedAgent") && who.webId.Some?)
    {
      assert classes[i] in classes;
      if classes[i] == FOAF_AGENT { return true; }
      if classes[i] == AclIri("AuthenticatedAgent") && who.webId.Some? { return true; }
    }
    if who.webId.Some? {
      var agents := NamedObjects(triples, rule, AclIri("agent"));
      if who.webId.value in agents { return true; }
    }
    return false;
  }

  method MatchesOrigin(triples: seq<Triple>, rule: Node, who: Requester) returns (ok: bool)
    ensures ok == FromOrigin(GraphOf(triples), rule, who)
  {
    var allowed := NamedObjects(triples, rule, AclIri("origin"));
    forall t | t in GraphOf(triples) && IsOriginOf(t, rule) ensures t.obj.iri in allowed {
      assert t == Triple(rule, AclIri("origin"), NamedNode(t.obj.iri));
    }
    if |allowed| == 0 {
      return true;
    }
    assert allowed[0] in allowed;
    assert IsOriginOf(Triple(rule, AclIri("origin"), NamedNode(allowed[0])), rule);
    return who.origin.Some? && who.origin.value in allowed;
  }

  method GrantedModes(triples: seq<Triple>, rule: Node) returns (modes: seq<AccessMode>)
    ensures forall m :: m in modes <==> ListsMode(GraphOf(triples), rule, m)
  {
    modes := [];
    var iris := NamedObjects(triples, rule, AclIri("mode"));
    for i := 0 to |iris|
      invariant forall m :: m in modes <==> exists k :: 0 <= k < i && ModeOfIri(iris[k]) == Some(m)
    {
      var mode := ModeOfIri(iris[i]);
      if mode.Some? { modes := modes + [mode.value]; }
    }
    forall m ensures m in modes <==> ListsMode(GraphOf(triples), rule, m) {
      if m in modes {
        var k :| 0 <= k < |iris| && ModeOfIri(iris[k]) == Some(m);
        assert iris[k] in iris;
        assert Triple(rule, AclIri("mode"), NamedNode(iris[k])) in GraphOf(triples);
      }
      if ListsMode(GraphOf(triples), rule, m) {
        var t :| t in GraphOf(triples) && t.subject == rule && t.pred == AclIri("mode") && t.obj.NamedNode?
                 && ModeOfIri(t.obj.iri) == Some(m);
        assert t == Triple(rule, AclIri("mode"), NamedNode(t.obj.iri));
        assert t.obj.iri in iris;
      }
    }
  }

  method ModesFor(triples: seq<Triple>, resource: string, who: Requester, scope: AclScope)
    returns (granted: set<AccessMode>)
    ensures granted == Modes(GraphOf(triples), resource, who, scope)
  {
    ghost var g := GraphOf(triples);
    granted := {};
    var rules := AuthorizationSubjects(triples);
    for i := 0 to |rules|
      invariant forall m :: m in granted <==> exists k :: 0 <= k < i && RuleGrants(g, rules[k], resource, who, scope, m)
    {
      var rule := rules[i];
      assert rule in rules;
      ghost var before := granted;
      var inScope := AppliesToResource(triples, rule, resource, scope);
      if !inScope { continue; }
      var forAgent := MatchesAgent(triples, rule, who);
      if !forAgent { continue; }
      var fromOrigin := MatchesOrigin(triples, rule, who);
      if !fromOrigin { continue; }
      var modes := GrantedModes(triples, rule);
      for j := 0 to |modes|
        invariant granted == before + set m | m in modes[..j]
      {
        assert modes[..j + 1] == modes[..j] + [modes[j]];
        granted := granted + {modes[j]};
      }
      assert modes[..|modes|] == modes;
      assert forall m :: m in granted <==> m in before || RuleGrants(g, rule, resource, who, scope, m);
    }
    forall m ensures m in granted <==> m in Modes(g, resource, who, scope) {
      if m in granted {
        var k :| 0 <= k < |rules| && RuleGrants(g, rules[k], resource, who, scope, m);
        assert Triple(rules[k], RDF_TYPE, NamedNode(AclIri("Authorization"))) in g;
        assert rules[k] in Subjects(g);
      }
      if m in Modes(g, resource, who, scope) {
        var rule :| rule in Subjects(g) && RuleGrants(g, rule, resource, who, scope, m);
        assert rule in rules;
      }
    }
  }

  predicate Satisfies(granted: set<AccessMode>, required: AccessMode) {
    required in granted || (required == Append && Write in granted)
  }

  // --- Laws ------------------------------------------------------------------------------------

  lemma InModes(g: Graph, resource: string, who: Requester, scope: AclScope, mode: AccessMode)
    ensures mode in Modes(g, resource, who, scope) <==> exists rule :: RuleGrants(g, rule, resource, who, scope, mode)
  {
  }

  /** The order and the multiplicity of the triples do not matter. */
  lemma OnlyTheSetMatters(a: seq<Triple>, b: seq<Triple>, resource: string, who: Requester, scope: AclScope)
    requires forall t :: t in a <==> t in b
    ensures Modes(GraphOf(a), resource, who, scope) == Modes(GraphOf(b), resource, who, scope)
  {
    assert GraphOf(a) == GraphOf(b);
  }

  predicate IsOriginTriple(t: Triple) { t.pred == AclIri("origin") && t.obj.NamedNode? }

  lemma RuleMonotone(g: Graph, h: Graph, rule: Node, resource: string, who: Requester, scope: AclScope,
                     mode: AccessMode)
    requires g <= h && (forall t :: t in h && IsOriginTriple(t) ==> t in g)
    requires RuleGrants(g, rule, resource, who, scope, mode)
    ensures RuleGrants(h, rule, resource, who, scope, mode)
  {
  }

  /** Adding triples never takes a mode away, origin restrictions excepted. */
  lemma Monotone(g: Graph, h: Graph, resource: string, who: Requester, scope: AclScope)
    requires g <= h && (forall t :: t in h && IsOriginTriple(t) ==> t in g)
    ensures Modes(g, resource, who, scope) <= Modes(h, resource, who, scope)
  {
    forall mode | mode in Modes(g, resource, who, scope) ensures mode in Modes(h, resource, who, scope) {
      InModes(g, resource, who, scope, mode);
      InModes(h, resource, who, scope, mode);
      var rule :| RuleGrants(g, rule, resource, who, scope, mode);
      RuleMonotone(g, h, rule, resource, who, scope, mode);
    }
  }

  /** A request is allowed exactly when one rule grants its mode, or it appends and one grants
      writing; growing the graph, origin restrictions excepted, never takes the permission away. */
  lemma AllowedMeaning(g: Graph, h: Graph, resource: string, who: Requester, scope: AclScope, required: AccessMode)
    requires g <= h && (forall t :: t in h && IsOriginTriple(t) ==> t in g)
    ensures Satisfies(Modes(g, resource, who, scope), required)
            <==> exists rule :: || RuleGrants(g, rule, resource, who, scope, required)
                                || (required == Append && RuleGrants(g, rule, resource, who, scope, Write))
    ensures Satisfies(Modes(g, resource, who, scope), required) ==> Satisfies(Modes(h, resource, who, scope), required)
  {
    InModes(g, resource, who, scope, required);
    InModes(g, resource, who, scope, Write);
    Monotone(g, h, resource, who, scope);
  }

  /** Adding an origin to a rule narrows it to that origin and the ones it already listed; a caller
      that sends no origin loses whatever the rule gave. */
  lemma AddingOrigin(g: Graph, rule: Node, o: string, resource: string, who: Requester, scope: AclScope,
                     mode: AccessMode)
    ensures FromOrigin(g + {Triple(rule, AclIri("origin"), NamedNode(o))}, rule, who)
            <==> who.origin.Some? && (who.origin.value == o || Says(g, rule, AclIri("origin"), who.origin.value))
    ensures who.origin.None? ==>
              !RuleGrants(g + {Triple(rule, AclIri("origin"), NamedNode(o))}, rule, resource, who, scope, mode)
  {
  }

  /** Whatever the public may do, an authenticated caller from the same origin may do. */
  lemma PublicIncluded(g: Graph, resource: string, webId: string, origin: Option<string>, scope: AclScope)
    ensures Modes(g, resource, Requester(None, origin), scope)
            <= Modes(g, resource, Requester(Some(webId), origin), scope)
  {
  }

  /** A rule only depends on the triples about it. */
  lemma RuleIsLocal(g: Graph, h: Graph, rule: Node, resource: string, who: Requester, scope: AclScope, mode: AccessMode)
    requires forall t: Triple :: t.subject == rule ==> (t in g <==> t in h)
    ensures RuleGrants(g, rule, resource, who, scope, mode) <==> RuleGrants(h, rule, resource, who, scope, mode)
  {
  }

  /** Graphs about different subjects grant independently. */
  lemma UnionOfDisjoint(g: Graph, h: Graph, resource: string, who: Requester, scope: AclScope)
    requires Subjects(g) !! Subjects(h)
    ensures Modes(g + h, resource, who, scope) == Modes(g, resource, who, scope) + Modes(h, resource, who, scope)
  {
    forall mode ensures mode in Modes(g + h, resource, who, scope)
                        <==> mode in Modes(g, resource, who, scope) + Modes(h, resource, who, scope)
    {
      InModes(g + h, resource, who, scope, mode);
      InModes(g, resource, who, scope, mode);
      InModes(h, resource, who, scope, mode);
      forall rule ensures RuleGrants(g + h, rule, resource, who, scope, mode)
                          <==> (|| RuleGrants(g, rule, resource, who, scope, mode)
                                || RuleGrants(h, rule, resource, who, scope, mode))
      {
        RuleInUnion(g, h, rule, resource, who, scope, mode);
      }
    }
  }

  lemma RuleInUnion(g: Graph, h: Graph, rule: Node, resource: string, who: Requester, scope: AclScope, mode: AccessMode)
    requires Subjects(g) !! Subjects(h)
    ensures RuleGrants(g + h, rule, resource, who, scope, mode)
            <==> RuleGrants(g, rule, resource, who, scope, mode) || RuleGrants(h, rule, resource, who, scope, mode)
  {
    if rule !in Subjects(h) {
      forall t: Triple | t.subject == rule ensures t in g + h <==> t in g {
        assert t in h ==> t.subject in Subjects(h);
      }
      RuleIsLocal(g + h, g, rule, resource, who, scope, mode);
      assert Triple(rule, RDF_TYPE, NamedNode(AclIri("Authorization"))) !in h;
    } else {
      forall t: Triple | t.subject == rule ensures t in g + h <==> t in h {
        assert t in g ==> t.subject in Subjects(g);
      }
      RuleIsLocal(g + h, h, rule, resource, who, scope, mode);
      assert Triple(rule, RDF_TYPE, NamedNode(AclIri("Authorization"))) !in g;
    }
  }
}

/**
 * What the entries of resource lists say, as single facts, so that merged
 * entries can be compared with what they were merged from.
 */
module FactSets {
  import opened Common
  import opened Resources

  /** What an entry says about the resource with its URI. */
  datatype Fact = RelatedTo(uri: string) | Present | HasRole(role: Role) | Runs(app: string)

  ghost function PropFacts(props: Option<PropsValue>): set<Fact> {
    if props.None? then {}
    else {Present} + (set b | b in props.value.roles :: HasRole(b)) + (set a | a in props.value.apps :: Runs(a.name))
  }

  ghost function Facts(v: ResourceValue): set<Fact> {
    (set u | u in v.related :: RelatedTo(u)) + PropFacts(v.props)
  }

  ghost function AllFacts(vs: seq<ResourceValue>, uri: string): set<Fact> {
    set v, f | v in vs && v.uri == uri && f in Facts(v) :: f
  }

  ghost predicate Tells(v: ResourceValue, f: Fact) {
    match f
    case RelatedTo(u) => u in v.related
    case Present => v.props.Some?
    case HasRole(b) => b in Roles(v)
    case Runs(n) => HasKey(Apps(v), AppName, n)
  }

  lemma FactsAre(v: ResourceValue, f: Fact)
    ensures f in Facts(v) <==> Tells(v, f)
  {
    if f.Runs? && HasKey(Apps(v), AppName, f.app) {
      var i :| 0 <= i < |Apps(v)| && AppName(Apps(v)[i]) == f.app;
      assert Apps(v)[i] in v.props.value.apps;
    }
    if f.Runs? && f in Facts(v) {
      var a :| a in v.props.value.apps && a.name == f.app;
      var i :| 0 <= i < |Apps(v)| && Apps(v)[i] == a;
      assert AppName(Apps(v)[i]) == f.app;
    }
  }

  lemma AllFactsAre(vs: seq<ResourceValue>, uri: string, f: Fact)
    ensures f in AllFacts(vs, uri) <==> exists v :: v in vs && v.uri == uri && Tells(v, f)
  {
    forall v ensures f in Facts(v) <==> Tells(v, f) {
      FactsAre(v, f);
    }
  }

  lemma TellsBoth(g: ResourceValue, vs: seq<ResourceValue>, f: Fact)
    ensures (f in Facts(g) <==> f in AllFacts(vs, g.uri))
       <==> (Tells(g, f) <==> exists v :: v in vs && v.uri == g.uri && Tells(v, f))
  {
    FactsAre(g, f);
    AllFactsAre(vs, g.uri, f);
  }

  /** An entry unites entries exactly when it says what they say together. */
  lemma UnitesExactly(g: ResourceValue, vs: seq<ResourceValue>)
    ensures Unites(g, vs) <==> Facts(g) == AllFacts(vs, g.uri)
  {
    if Unites(g, vs) {
      forall f ensures f in Facts(g) <==> f in AllFacts(vs, g.uri) {
        TellsBoth(g, vs, f);
        UnitesTell(g, vs, f);
      }
    }
    if Facts(g) == AllFacts(vs, g.uri) {
      forall f ensures Tells(g, f) <==> exists v :: v in vs && v.uri == g.uri && Tells(v, f) {
        TellsBoth(g, vs, f);
      }
      TellUnites(g, vs);
    }
  }

  lemma UnitesTell(g: ResourceValue, vs: seq<ResourceValue>, f: Fact)
    requires Unites(g, vs)
    ensures Tells(g, f) <==> exists v :: v in vs && v.uri == g.uri && Tells(v, f)
  {
  }

  lemma TellUnites(g: ResourceValue, vs: seq<ResourceValue>)
    requires forall f :: Tells(g, f) <==> exists v :: v in vs && v.uri == g.uri && Tells(v, f)
    ensures Unites(g, vs)
  {
    forall b ensures b in Roles(g) <==> exists v :: v in vs && v.uri == g.uri && b in Roles(v) {
      TellsOne(g, vs, HasRole(b));
    }
    forall u ensures u in g.related <==> exists v :: v in vs && v.uri == g.uri && u in v.related {
      TellsOne(g, vs, RelatedTo(u));
    }
    forall n ensures HasKey(Apps(g), AppName, n) <==> exists v :: v in vs && v.uri == g.uri && HasKey(Apps(v), AppName, n) {
      TellsOne(g, vs, Runs(n));
    }
    TellsOne(g, vs, Present);
  }

  lemma TellsOne(g: ResourceValue, vs: seq<ResourceValue>, f: Fact)
    requires Tells(g, f) <==> exists v :: v in vs && v.uri == g.uri && Tells(v, f)
    ensures match f
      case RelatedTo(u) => u in g.related <==> exists v :: v in vs && v.uri == g.uri && u in v.related
      case Present => g.props.Some? <==> exists v :: v in vs && v.uri == g.uri && v.props.Some?
      case HasRole(b) => b in Roles(g) <==> exists v :: v in vs && v.uri == g.uri && b in Roles(v)
      case Runs(n) => HasKey(Apps(g), AppName, n) <==> exists v :: v in vs && v.uri == g.uri && HasKey(Apps(v), AppName, n)
  {
    if Tells(g, f) {
      var v :| v in vs && v.uri == g.uri && Tells(v, f);
    }
    assert forall v :: v in vs && v.uri == g.uri && Tells(v, f) ==> Tells(g, f);
  }
}

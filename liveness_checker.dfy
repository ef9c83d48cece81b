/**
 * The liveness probe of a SonarQube node: the node is live when its
 * database connection, web server and compute engine checks are green and
 * its Elasticsearch check, where the node has one, is not red.
 */
module LivenessChecker {

  datatype Status = Green | Yellow | Red

  datatype NodeCheck = DbConnection | WebServer | ComputeEngine | Elasticsearch

  /** What each node check reports when it is invoked. */
  datatype Reports = Reports(db: Status, web: Status, ce: Status, es: Status)

  /**
   * The checker's final fields: the Elasticsearch check is absent when the
   * three-argument constructor was used.
   */
  datatype Checker = Checker(hasEsCheck: bool)

  /** The four-argument constructor. */
  function WithEsCheck(): (c: Checker)
    ensures c.hasEsCheck
  {
    Checker(true)
  }

  /** The three-argument constructor, which leaves the Elasticsearch check null. */
  function WithoutEsCheck(): (c: Checker)
    ensures !c.hasEsCheck
  {
    Checker(false)
  }

  /** The outcome of one probe and the checks it invoked, in order. */
  datatype Probe = Probe(live: bool, invoked: seq<NodeCheck>)

  /** Liveness as a condition on the reports, independent of the order of the checks. */
  predicate Live(hasEsCheck: bool, r: Reports) {
    r.db == Green && r.web == Green && r.ce == Green && !(hasEsCheck && r.es == Red)
  }

  /** Whether a check's report makes the node not live. */
  predicate Fails(check: NodeCheck, r: Reports) {
    match check
    case DbConnection => r.db != Green
    case WebServer => r.web != Green
    case ComputeEngine => r.ce != Green
    case Elasticsearch => r.es == Red
  }

  /** `liveness()`: the checks run in order and the first failing one ends the probe. */
  function Liveness(c: Checker, r: Reports): (p: Probe)
    ensures p.live <==> Live(c.hasEsCheck, r)
    ensures 1 <= |p.invoked| <= 4
    ensures p.invoked == [DbConnection, WebServer, ComputeEngine, Elasticsearch][..|p.invoked|]
    ensures Elasticsearch in p.invoked ==> c.hasEsCheck
    ensures forall i :: 0 <= i < |p.invoked| - 1 ==> !Fails(p.invoked[i], r)
    ensures !p.live <==> Fails(p.invoked[|p.invoked| - 1], r)
  {
    if r.db != Green then Probe(false, [DbConnection])
    else if r.web != Green then Probe(false, [DbConnection, WebServer])
    else if r.ce != Green then Probe(false, [DbConnection, WebServer, ComputeEngine])
    else if c.hasEsCheck && r.es == Red then
      Probe(false, [DbConnection, WebServer, ComputeEngine, Elasticsearch])
    else if c.hasEsCheck then Probe(true, [DbConnection, WebServer, ComputeEngine, Elasticsearch])
    else Probe(true, [DbConnection, WebServer, ComputeEngine])
  }

  /** A yellow Elasticsearch is still live; a yellow database, web server or compute engine is not. */
  lemma YellowOnlyToleratedForElasticsearch(c: Checker, r: Reports)
    ensures r.db == Green && r.web == Green && r.ce == Green && r.es == Yellow ==> Liveness(c, r).live
    ensures r.db == Yellow || r.web == Yellow || r.ce == Yellow ==> !Liveness(c, r).live
  {
  }

  /** Without an Elasticsearch check the probe never looks at Elasticsearch. */
  lemma WithoutEsCheckIgnoresElasticsearch(r: Reports, es: Status)
    ensures Liveness(WithoutEsCheck(), r) == Liveness(WithoutEsCheck(), r.(es := es))
    ensures Elasticsearch !in Liveness(WithoutEsCheck(), r).invoked
  {
  }

  /** A node with the Elasticsearch check is live only if it would be live without it. */
  lemma EsCheckOnlyStrengthens(r: Reports)
    ensures Liveness(WithEsCheck(), r).live ==> Liveness(WithoutEsCheck(), r).live
  {
  }
}

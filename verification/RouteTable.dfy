/** The metric-sorted route table of the kernel (libavproto/src/avkernel.cpp). */
module RouteTable {
  import opened Std

  datatype Route = Route(pattern: string, gateway: string, ifname: string, metric: int)

  /** Whether a pattern matches an address; general regular expressions stay abstract. */
  type Matcher = (string, string) -> bool

  ghost predicate Sorted(routes: seq<Route>) {
    forall i, j :: 0 <= i < j < |routes| ==> routes[i].metric <= routes[j].metric
  }

  /** Some sorted arrangement of the same routes; `boost::sort` does not promise which. */
  ghost predicate IsSorting(before: seq<Route>, after: seq<Route>) {
    Sorted(after) && multiset(after) == multiset(before)
  }

  /** The first route whose pattern matches. */
  function Select(matches: Matcher, routes: seq<Route>, address: string): Option<Route> {
    if routes == [] then None
    else if matches(routes[0].pattern, address) then Some(routes[0])
    else Select(matches, routes[1..], address)
  }

  /** On a sorted table selection is by least metric, and it fails only if nothing matches. */
  lemma {:induction false} SelectIsLeast(matches: Matcher, routes: seq<Route>, address: string)
    requires Sorted(routes)
    ensures match Select(matches, routes, address)
            case Some(r) =>
              && r in routes && matches(r.pattern, address)
              && forall x :: x in routes && matches(x.pattern, address) ==> r.metric <= x.metric
            case None => forall x :: x in routes ==> !matches(x.pattern, address)
    decreases |routes|
  {
    if routes != [] {
      var rest := routes[1..];
      forall i, j | 0 <= i < j < |rest|
        ensures rest[i].metric <= rest[j].metric
      {
        assert rest[i] == routes[i + 1] && rest[j] == routes[j + 1];
      }
      SelectIsLeast(matches, rest, address);
      assert forall x :: x in routes ==> x == routes[0] || x in rest;
    }
  }

  /** What is left after an interface's routes have been erased one by one. */
  function Without(routes: seq<Route>, ifname: string): (r: seq<Route>)
    ensures forall x :: x in r <==> x in routes && x.ifname != ifname
  {
    Filter(routes, (r: Route) => r.ifname != ifname)
  }

  lemma {:induction false} WithoutSorted(routes: seq<Route>, ifname: string)
    requires Sorted(routes)
    ensures Sorted(Without(routes, ifname))
    decreases |routes|
  {
    if routes != [] {
      var rest, kept := routes[1..], Without(routes[1..], ifname);
      forall i, j | 0 <= i < j < |rest|
        ensures rest[i].metric <= rest[j].metric
      {
        assert rest[i] == routes[i + 1] && rest[j] == routes[j + 1];
      }
      WithoutSorted(rest, ifname);
      forall x | x in kept
        ensures routes[0].metric <= x.metric
      {
        var i :| 0 <= i < |rest| && rest[i] == x;
        assert x == routes[i + 1];
      }
    }
  }

  /** Erasing any one matching route brings the table closer to `Without` and no further. */
  lemma WithoutErase(routes: seq<Route>, i: nat, ifname: string)
    requires i < |routes| && routes[i].ifname == ifname
    ensures Without(RemoveAt(routes, i), ifname) == Without(routes, ifname)
  {
    var keep := (r: Route) => r.ifname != ifname;
    SplitAt(routes, i);
    FilterAppend(routes[..i] + [routes[i]], routes[i + 1..], keep);
    FilterOneMore(routes[..i], routes[i], keep);
    FilterAppend(routes[..i], routes[i + 1..], keep);
  }

  lemma WithoutNothing(routes: seq<Route>, ifname: string)
    requires forall r :: r in routes ==> r.ifname != ifname
    ensures Without(routes, ifname) == routes
  {
    FilterAll(routes, (r: Route) => r.ifname != ifname);
  }

  /** `boost::sort` by metric. */
  method Sort(before: seq<Route>) returns (after: seq<Route>)
    ensures IsSorting(before, after)
  {
    after := SortBy((r: Route) => r.metric, before);
    assert Ascending((r: Route) => r.metric, after);
  }
}

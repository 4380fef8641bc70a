/** The groups a failure lost (packages/service/src/agent_runtime_service/run_liveness.py:490-509): a walk over
    a finite graph of exceptions, which may hold itself through its causes, contexts and members. */
module ContainmentLosses {
  import opened Wire

  type Ref = nat

  type Group = nat

  /** An exception: the group it names if it is a containment loss, its members if it is an exception
      group, and the links Python gives it. */
  datatype Failure = Failure(lost: Option<Group>, members: seq<Ref>, cause: Option<Ref>, context: Option<Ref>)

  type Graph = map<Ref, Failure>

  function One(link: Option<Ref>): seq<Ref> {
    if link.Some? then [link.value] else []
  }

  function Linked(f: Failure): seq<Ref> {
    f.members + One(f.cause) + One(f.context)
  }

  predicate Closed(g: Graph) {
    forall r, link :: r in g && link in Linked(g[r]) ==> link in g
  }

  /** A way through the links from `first` to `last`. */
  ghost predicate Way(g: Graph, way: seq<Ref>, first: Ref, last: Ref) {
    && way != [] && way[0] == first && way[|way| - 1] == last
    && (forall k :: 0 <= k < |way| ==> way[k] in g)
    && (forall k :: 0 <= k < |way| - 1 ==> way[k + 1] in Linked(g[way[k]]))
  }

  ghost predicate Reaches(g: Graph, first: Ref, last: Ref) {
    exists way :: Way(g, way, first, last)
  }

  lemma LinksAreReached(g: Graph, first: Ref, last: Ref, link: Ref)
    requires Closed(g) && Reaches(g, first, last) && last in g && link in Linked(g[last])
    ensures Reaches(g, first, link)
  {
    var way :| Way(g, way, first, last);
    var longer := way + [link];
    assert forall k :: 0 <= k < |way| ==> longer[k] == way[k];
    assert Way(g, longer, first, link);
  }

  /** A set that holds a failure and every link of what it holds holds all that is reached. */
  lemma {:induction false} ClosedSetsHoldTheReached(g: Graph, seen: set<Ref>, way: seq<Ref>, first: Ref, last: Ref)
    requires Way(g, way, first, last) && first in seen
    requires forall r, link :: r in seen && r in g && link in Linked(g[r]) ==> link in seen
    ensures last in seen
    decreases |way|
  {
    if |way| > 1 {
      assert way[1] in Linked(g[way[0]]);
      assert forall k :: 0 <= k < |way| - 1 ==> way[1..][k] == way[k + 1];
      ClosedSetsHoldTheReached(g, seen, way[1..], way[1], last);
    }
  }

  ghost predicate LostBy(g: Graph, seen: set<Ref>, group: Group) {
    exists r :: r in seen && r in g && g[r].lost == Some(group)
  }

  predicate NoDoubles(groups: seq<Group>) {
    forall i, j :: 0 <= i < j < |groups| ==> groups[i] != groups[j]
  }

  function Reversed(links: seq<Ref>): (r: seq<Ref>)
    ensures |r| == |links| && forall x :: x in r <==> x in links
  {
    if links == [] then [] else Reversed(links[1..]) + [links[0]]
  }

  /** What the walk knows: all it saw or has yet to see is reached, and no link of what it saw is forgotten. */
  ghost predicate Walking(g: Graph, error: Ref, visited: set<Ref>, unvisited: seq<Ref>, groups: seq<Group>) {
    && visited <= g.Keys && (forall r :: r in unvisited ==> r in g)
    && (error in visited || error in unvisited)
    && (forall r :: r in visited || r in unvisited ==> Reaches(g, error, r))
    && (forall r, link :: r in visited && link in Linked(g[r]) ==> link in visited || link in unvisited)
    && NoDoubles(groups) && (forall group :: group in groups <==> LostBy(g, visited, group))
  }

  lemma SeenBefore(g: Graph, error: Ref, visited: set<Ref>, unvisited: seq<Ref>, groups: seq<Group>)
    requires Walking(g, error, visited, unvisited, groups)
    requires unvisited != [] && unvisited[|unvisited| - 1] in visited
    ensures Walking(g, error, visited, unvisited[..|unvisited| - 1], groups)
  {
    var rest, last := unvisited[..|unvisited| - 1], unvisited[|unvisited| - 1];
    assert unvisited == rest + [last];
    hide Linked, Reaches, LostBy, NoDoubles;
  }

  lemma Visiting(g: Graph, error: Ref, visited: set<Ref>, unvisited: seq<Ref>, groups: seq<Group>, found: seq<Group>)
    requires Closed(g) && Walking(g, error, visited, unvisited, groups)
    requires unvisited != [] && unvisited[|unvisited| - 1] !in visited
    requires var f := g[unvisited[|unvisited| - 1]];
             found == if f.lost.Some? && f.lost.value !in groups then groups + [f.lost.value] else groups
    ensures var current := unvisited[|unvisited| - 1];
            Walking(g, error, visited + {current}, unvisited[..|unvisited| - 1] + Reversed(Linked(g[current])), found)
  {
    var rest, current := unvisited[..|unvisited| - 1], unvisited[|unvisited| - 1];
    var links := Linked(g[current]);
    assert unvisited == rest + [current];
    assert Reaches(g, error, current);
    forall link | link in links ensures link in g && Reaches(g, error, link) {
      LinksAreReached(g, error, current, link);
    }
    LostWithOneMore(g, visited, current, groups, found);
    var next := rest + Reversed(links);
    assert forall x :: x in next <==> x in rest || x in links;
    assert forall x :: x in unvisited <==> x in rest || x == current;
    hide Linked, Reaches, LostBy, NoDoubles, Reversed;
    SeenWithOneMore(g, error, visited, rest, current, unvisited, next);
    WalkingOn(g, error, visited, unvisited, next, current, found);
  }

  lemma WalkingOn(g: Graph, error: Ref, visited: set<Ref>, unvisited: seq<Ref>, next: seq<Ref>, current: Ref,
                  found: seq<Group>)
    requires visited <= g.Keys && current in g && (error in visited || error in unvisited)
    requires forall x :: x in unvisited ==> x in next || x == current
    requires forall x :: x in next ==> x in g && Reaches(g, error, x)
    requires forall r :: r in visited || r == current ==> Reaches(g, error, r)
    requires forall r, link :: r in visited + {current} && link in Linked(g[r]) ==> link in visited + {current} || link in next
    requires NoDoubles(found) && (forall group :: group in found <==> LostBy(g, visited + {current}, group))
    ensures Walking(g, error, visited + {current}, next, found)
  {
    hide Linked, Reaches, LostBy, NoDoubles;
  }

  lemma SeenWithOneMore(g: Graph, error: Ref, visited: set<Ref>, rest: seq<Ref>, current: Ref, unvisited: seq<Ref>,
                        next: seq<Ref>)
    requires current in g && visited <= g.Keys
    requires forall x :: x in unvisited <==> x in rest || x == current
    requires forall x :: x in next <==> x in rest || x in Linked(g[current])
    requires forall r, link :: r in visited && link in Linked(g[r]) ==> link in visited || link in unvisited
    ensures forall r, link :: r in visited + {current} && link in Linked(g[r]) ==> link in visited + {current} || link in next
  {
    hide Linked;
  }

  lemma LostWithOneMore(g: Graph, visited: set<Ref>, current: Ref, groups: seq<Group>, found: seq<Group>)
    requires current in g && NoDoubles(groups) && (forall group :: group in groups <==> LostBy(g, visited, group))
    requires var f := g[current];
             found == if f.lost.Some? && f.lost.value !in groups then groups + [f.lost.value] else groups
    ensures NoDoubles(found) && (forall group :: group in found <==> LostBy(g, visited + {current}, group))
  {
    forall group ensures group in found <==> LostBy(g, visited + {current}, group) {
      assert LostBy(g, visited + {current}, group) <==> LostBy(g, visited, group) || g[current].lost == Some(group) by {
        if g[current].lost == Some(group) {
          assert current in visited + {current};
        }
        if LostBy(g, visited, group) {
          var r :| r in visited && r in g && g[r].lost == Some(group);
          assert r in visited + {current};
        }
      }
    }
  }

  // ---------------------------------------------------------------- in which order

  /** The failures in the order a walk meets them: each one before its members, its cause and its context, with
      all that is reached through an earlier link before a later one; what was visited is not met again. */
  function Preorder(g: Graph, links: seq<Ref>, visited: set<Ref>): seq<Ref>
    decreases g.Keys - visited, |links|
  {
    if links == [] then []
    else if links[0] in visited || links[0] !in g then Preorder(g, links[1..], visited)
    else
      var below := Preorder(g, Linked(g[links[0]]), visited + {links[0]});
      [links[0]] + below + Preorder(g, links[1..], visited + {links[0]} + SetOf(below))
  }

  function SetOf(refs: seq<Ref>): set<Ref> {
    set r | r in refs
  }

  /** The groups of the containment losses among them, each at its first place. */
  function GroupsOf(g: Graph, met: seq<Ref>): seq<Group> {
    if met == [] then []
    else
      var groups, last := GroupsOf(g, met[..|met| - 1]), met[|met| - 1];
      if last in g && g[last].lost.Some? && g[last].lost.value !in groups then groups + [g[last].lost.value] else groups
  }

  lemma JoinedOrder(a: seq<Ref>, b: seq<Ref>, c: seq<Ref>, d: seq<Ref>)
    ensures a + b + (c + d) == (a + b + c) + d
    ensures SetOf(a + b + c) == SetOf(a) + SetOf(b) + SetOf(c)
  {
  }

  /** Walking links in two parts is walking them one after the other. */
  lemma {:induction false} PreorderOfParts(g: Graph, a: seq<Ref>, b: seq<Ref>, visited: set<Ref>)
    ensures Preorder(g, a + b, visited) == Preorder(g, a, visited) + Preorder(g, b, visited + SetOf(Preorder(g, a, visited)))
    decreases g.Keys - visited, |a|
  {
    if a == [] {
      assert a + b == b && visited + SetOf([]) == visited;
    } else {
      assert (a + b)[0] == a[0] && (a + b)[1..] == a[1..] + b;
      if a[0] in visited || a[0] !in g {
        PreorderOfParts(g, a[1..], b, visited);
      } else {
        var below := Preorder(g, Linked(g[a[0]]), visited + {a[0]});
        var seen := visited + {a[0]} + SetOf(below);
        PreorderOfParts(g, a[1..], b, seen);
        var rest := Preorder(g, a[1..], seen);
        JoinedOrder([a[0]], below, rest, Preorder(g, b, seen + SetOf(rest)));
        assert seen + SetOf(rest) == visited + SetOf([a[0]] + below + rest);
      }
    }
  }

  /** One visit: the links of the failure stand before what was left to visit. */
  lemma VisitingInOrder(g: Graph, current: Ref, rest: seq<Ref>, visited: set<Ref>)
    requires current in g && current !in visited
    ensures Preorder(g, [current] + rest, visited)
            == [current] + Preorder(g, Linked(g[current]) + rest, visited + {current})
  {
    var links := [current] + rest;
    assert links[1..] == rest;
    PreorderOfParts(g, Linked(g[current]), rest, visited + {current});
  }

  lemma {:induction false} TopFirst(unvisited: seq<Ref>, links: seq<Ref>)
    ensures Reversed(unvisited + Reversed(links)) == links + Reversed(unvisited)
    decreases |unvisited|
  {
    if unvisited == [] {
      assert unvisited + Reversed(links) == Reversed(links);
      ReversedTwice(links);
    } else {
      assert (unvisited + Reversed(links))[1..] == unvisited[1..] + Reversed(links);
      TopFirst(unvisited[1..], links);
      assert links + Reversed(unvisited[1..]) + [unvisited[0]] == links + (Reversed(unvisited[1..]) + [unvisited[0]]);
    }
  }

  lemma {:induction false} ReversedOfMore(links: seq<Ref>, last: Ref)
    ensures Reversed(links + [last]) == [last] + Reversed(links)
  {
    if links != [] {
      assert (links + [last])[1..] == links[1..] + [last];
      ReversedOfMore(links[1..], last);
    }
  }

  lemma {:induction false} ReversedTwice(links: seq<Ref>)
    ensures Reversed(Reversed(links)) == links
  {
    if links != [] {
      ReversedTwice(links[1..]);
      ReversedOfMore(Reversed(links[1..]), links[0]);
    }
  }

  lemma OneMoreMet(g: Graph, met: seq<Ref>, current: Ref)
    requires current in g
    ensures var groups := GroupsOf(g, met);
            GroupsOf(g, met + [current])
            == if g[current].lost.Some? && g[current].lost.value !in groups then groups + [g[current].lost.value] else groups
  {
    assert (met + [current])[..|met|] == met;
  }

  /** What is met and what is left to meet, the last one first, is the whole walk. */
  ghost predicate InOrder(g: Graph, error: Ref, met: seq<Ref>, visited: set<Ref>, unvisited: seq<Ref>) {
    met + Preorder(g, Reversed(unvisited), visited) == Preorder(g, [error], {})
  }

  lemma SkippingInOrder(g: Graph, error: Ref, met: seq<Ref>, visited: set<Ref>, unvisited: seq<Ref>)
    requires unvisited != [] && unvisited[|unvisited| - 1] in visited && InOrder(g, error, met, visited, unvisited)
    ensures InOrder(g, error, met, visited, unvisited[..|unvisited| - 1])
  {
    var rest, last := unvisited[..|unvisited| - 1], unvisited[|unvisited| - 1];
    assert unvisited == rest + [last];
    ReversedOfMore(rest, last);
    assert Reversed(unvisited)[1..] == Reversed(rest);
  }

  lemma MeetingInOrder(g: Graph, error: Ref, met: seq<Ref>, visited: set<Ref>, unvisited: seq<Ref>)
    requires unvisited != [] && unvisited[|unvisited| - 1] in g && unvisited[|unvisited| - 1] !in visited
    requires InOrder(g, error, met, visited, unvisited)
    ensures var current := unvisited[|unvisited| - 1];
            InOrder(g, error, met + [current], visited + {current},
                    unvisited[..|unvisited| - 1] + Reversed(Linked(g[current])))
  {
    var rest, current := unvisited[..|unvisited| - 1], unvisited[|unvisited| - 1];
    assert unvisited == rest + [current];
    ReversedOfMore(rest, current);
    TopFirst(rest, Linked(g[current]));
    VisitingInOrder(g, current, Reversed(rest), visited);
    hide Preorder, Reversed, Linked;
    var more := Preorder(g, Linked(g[current]) + Reversed(rest), visited + {current});
    assert met + ([current] + more) == (met + [current]) + more;
  }

  /** Ends on every graph, and returns each distinct group of a reached containment loss exactly once, in the
      order a walk through members, cause and context meets it first. */
  method FindLosses(g: Graph, error: Ref) returns (groups: seq<Group>)
    requires Closed(g) && error in g
    ensures NoDoubles(groups)
    ensures forall group :: group in groups <==> exists r :: r in g && Reaches(g, error, r) && g[r].lost == Some(group)
    ensures groups == GroupsOf(g, Preorder(g, [error], {}))
  {
    groups := [];
    var visited: set<Ref> := {};
    var unvisited := [error];
    ghost var met: seq<Ref> := [];
    assert Way(g, [error], error, error);
    assert Reversed([error]) == [error] && [] + Preorder(g, [error], {}) == Preorder(g, [error], {});
    hide Preorder, Reversed, Linked, GroupsOf, InOrder, NoDoubles, Reaches;
    NothingMet(g);
    while unvisited != []
      invariant Walking(g, error, visited, unvisited, groups)
      invariant InOrder(g, error, met, visited, unvisited) && groups == GroupsOf(g, met)
      decreases g.Keys - visited, |unvisited|
    {
      var current := unvisited[|unvisited| - 1];
      ghost var before := groups;
      if current in visited {
        SeenBefore(g, error, visited, unvisited, groups);
        SkippingInOrder(g, error, met, visited, unvisited);
        unvisited := unvisited[..|unvisited| - 1];
      } else {
        OneMoreMet(g, met, current);
        MeetingInOrder(g, error, met, visited, unvisited);
        if g[current].lost.Some? && g[current].lost.value !in groups {
          groups := groups + [g[current].lost.value];
        }
        Visiting(g, error, visited, unvisited, before, groups);
        assert g.Keys - (visited + {current}) < g.Keys - visited by {
          assert current in g.Keys - visited;
        }
        met := met + [current];
        visited := visited + {current};
        unvisited := unvisited[..|unvisited| - 1] + Reversed(Linked(g[current]));
      }
    }
    AllMet(g, error, met, visited);
    AllReachedAreVisited(g, error, visited, groups);
  }

  lemma NothingMet(g: Graph)
    ensures GroupsOf(g, []) == []
  {
  }

  lemma AllMet(g: Graph, error: Ref, met: seq<Ref>, visited: set<Ref>)
    requires InOrder(g, error, met, visited, [])
    ensures met == Preorder(g, [error], {})
  {
    assert Reversed([]) == [] && met + [] == met;
  }

  lemma AllReachedAreVisited(g: Graph, error: Ref, visited: set<Ref>, groups: seq<Group>)
    requires Walking(g, error, visited, [], groups)
    ensures forall group :: group in groups <==> exists r :: r in g && Reaches(g, error, r) && g[r].lost == Some(group)
  {
    forall r | r in g && Reaches(g, error, r) ensures r in visited {
      var way :| Way(g, way, error, r);
      ClosedSetsHoldTheReached(g, visited, way, error, r);
    }
    hide Reaches, Linked, NoDoubles;
  }
}

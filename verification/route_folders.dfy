/** Documentation routes: de-duplicated by method and path, then filed in folders by path prefix. */
module RouteFolders {

  datatype Route = Route(verb: string, path: string)

  predicate Wildcard(r: Route) {
    r.path == "/*" || r.path == "*"
  }

  /** The non-wildcard routes of the first n, each at its first occurrence. */
  function Distinct(raw: seq<Route>, n: nat): seq<Route>
    requires n <= |raw|
  {
    if n == 0 then []
    else
      var before := Distinct(raw, n - 1);
      if Wildcard(raw[n - 1]) || raw[n - 1] in before then before else before + [raw[n - 1]]
  }

  /** Where a route first occurs. */
  function FirstIndex(raw: seq<Route>, r: Route): (k: nat)
    ensures k <= |raw| && (k < |raw| ==> raw[k] == r)
    ensures forall j: nat :: j < k ==> raw[j] != r
  {
    if raw == [] || raw[0] == r then 0 else 1 + FirstIndex(raw[1..], r)
  }

  /** Exactly the non-wildcard routes are kept, once each, in the order of their first occurrence. */
  lemma {:induction false} DistinctIsFirstOccurrences(raw: seq<Route>, n: nat)
    requires n <= |raw|
    ensures var d := Distinct(raw, n);
      && (forall r :: r in d <==> r in raw[..n] && r.path != "/*" && r.path != "*")
      && (forall i :: 0 <= i < |d| ==> FirstIndex(raw, d[i]) < n)
      && (forall i, j :: 0 <= i < j < |d| ==> FirstIndex(raw, d[i]) < FirstIndex(raw, d[j]))
  {
    if n > 0 {
      DistinctIsFirstOccurrences(raw, n - 1);
      var last := raw[n - 1];
      assert raw[..n] == raw[..n - 1] + [last];
      if !Wildcard(last) && last !in Distinct(raw, n - 1) {
        assert forall j :: 0 <= j < n - 1 ==> raw[j] != last by {
          forall j | 0 <= j < n - 1 ensures raw[j] != last {
            assert raw[j] in raw[..n - 1];
          }
        }
        assert FirstIndex(raw, last) == n - 1;
      }
    }
  }

  /** Fill an ordered map keyed by method and path: a key seen before keeps its place. */
  method Deduplicate(raw: seq<Route>) returns (routes: seq<Route>)
    ensures routes == Distinct(raw, |raw|)
  {
    routes := [];
    for i := 0 to |raw|
      invariant routes == Distinct(raw, i)
    {
      if !Wildcard(raw[i]) && raw[i] !in routes {
        routes := routes + [raw[i]];
      }
    }
  }

  // ---------------------------------------------------------------------------------------
  //  Folders
  // ---------------------------------------------------------------------------------------

  predicate StartsWith(path: string, prefix: string) {
    prefix <= path
  }

  lemma StartsWithIff(path: string, prefix: string)
    ensures StartsWith(path, prefix) <==> exists rest :: path == prefix + rest
  {
    if StartsWith(path, prefix) {
      assert path == prefix + path[|prefix|..];
    }
  }

  const FOLDERS := 10

  /** The folder of a path; the last one takes whatever no prefix claims. */
  function FolderOf(path: string): (f: nat)
    ensures f < FOLDERS
  {
    if StartsWith(path, "/auth") then 0
    else if StartsWith(path, "/tenants") then 1
    else if StartsWith(path, "/venues") then 2
    else if StartsWith(path, "/events") || StartsWith(path, "/event-categories") || StartsWith(path, "/event-tags")
            || StartsWith(path, "/event-series") || StartsWith(path, "/artists") then 3
    else if StartsWith(path, "/ticket-types") then 4
    else if StartsWith(path, "/booking-orders") then 5
    else if StartsWith(path, "/issued-tickets") then 6
    else if StartsWith(path, "/media") then 7
    else if StartsWith(path, "/notifications") || StartsWith(path, "/notification-preferences") then 8
    else 9
  }

  /** What the paths of each folder but the last begin with. */
  function Prefixes(f: nat): set<string> {
    if f == 0 then {"/auth"}
    else if f == 1 then {"/tenants"}
    else if f == 2 then {"/venues"}
    else if f == 3 then {"/events", "/event-categories", "/event-tags", "/event-series", "/artists"}
    else if f == 4 then {"/ticket-types"}
    else if f == 5 then {"/booking-orders"}
    else if f == 6 then {"/issued-tickets"}
    else if f == 7 then {"/media"}
    else if f == 8 then {"/notifications", "/notification-preferences"}
    else {}
  }

  ghost predicate Claims(f: nat, path: string) {
    exists p :: p in Prefixes(f) && StartsWith(path, p)
  }

  /** The folder that the first two letters of a path point to, if any. */
  function Marked(a: char, b: char): nat {
    if a == 'a' then (if b == 'u' then 0 else 3)
    else if a == 't' then (if b == 'e' then 1 else 4)
    else if a == 'v' then 2
    else if a == 'e' then 3
    else if a == 'b' then 5
    else if a == 'i' then 6
    else if a == 'm' then 7
    else if a == 'n' then 8
    else FOLDERS
  }

  lemma PrefixIsMarked(f: nat, p: string)
    requires p in Prefixes(f)
    ensures |p| > 2 && Marked(p[1], p[2]) == f
  {
  }

  /** No path is claimed by two folders, so the order in which they are asked does not matter. */
  lemma ClaimedOnce(f: nat, g: nat, path: string)
    requires Claims(f, path) && Claims(g, path)
    ensures f == g
  {
    var p :| p in Prefixes(f) && StartsWith(path, p);
    var q :| q in Prefixes(g) && StartsWith(path, q);
    PrefixIsMarked(f, p);
    PrefixIsMarked(g, q);
    assert p[1] == path[1] == q[1] && p[2] == path[2] == q[2];
  }

  /** A path is filed in the folder that claims it, and in the last one exactly when none does. */
  lemma FolderClaims(path: string, f: nat)
    requires f < FOLDERS - 1
    ensures FolderOf(path) == f <==> Claims(f, path)
    ensures FolderOf(path) == FOLDERS - 1 <==> forall g :: 0 <= g < FOLDERS - 1 ==> !Claims(g, path)
  {
    var own := FolderOf(path);
    if own < FOLDERS - 1 {
      ClaimedByOwn(path);
      if Claims(f, path) {
        ClaimedOnce(f, own, path);
      }
    } else {
      LastIsUnclaimed(path);
    }
  }

  lemma ClaimedByOwn(path: string)
    requires FolderOf(path) < FOLDERS - 1
    ensures Claims(FolderOf(path), path)
  {
    var p :| p in Prefixes(FolderOf(path)) && StartsWith(path, p);
  }

  lemma LastIsUnclaimed(path: string)
    requires FolderOf(path) == FOLDERS - 1
    ensures forall g :: 0 <= g < FOLDERS - 1 ==> !Claims(g, path)
  {
  }

  /** The routes of one folder, in order. */
  function InFolder(routes: seq<Route>, f: nat): seq<Route> {
    if routes == [] then []
    else InFolder(routes[..|routes| - 1], f) + if FolderOf(routes[|routes| - 1].path) == f then [routes[|routes| - 1]] else []
  }

  function SizeUpTo(folders: seq<seq<Route>>): nat {
    if folders == [] then 0 else |folders[0]| + SizeUpTo(folders[1..])
  }

  lemma {:induction false} SizeUpdate(folders: seq<seq<Route>>, f: nat, r: Route)
    requires f < |folders|
    ensures SizeUpTo(folders[f := folders[f] + [r]]) == SizeUpTo(folders) + 1
  {
    if f == 0 {
      assert folders[0 := folders[0] + [r]][1..] == folders[1..];
    } else {
      assert folders[f := folders[f] + [r]][1..] == folders[1..][f - 1 := folders[f] + [r]];
      SizeUpdate(folders[1..], f - 1, r);
    }
  }

  function Empty(n: nat): (folders: seq<seq<Route>>)
    ensures |folders| == n && forall f :: 0 <= f < n ==> folders[f] == []
    ensures SizeUpTo(folders) == 0
  {
    if n == 0 then [] else
      var rest := Empty(n - 1);
      assert ([[]] + rest)[1..] == rest;
      [[]] + rest
  }

  lemma InFolderStep(routes: seq<Route>, i: nat, f: nat)
    requires i < |routes|
    ensures InFolder(routes[..i + 1], f) == InFolder(routes[..i], f) + if FolderOf(routes[i].path) == f then [routes[i]] else []
  {
    assert routes[..i + 1][..i] == routes[..i] && routes[..i + 1][i] == routes[i];
  }

  method Append(folders: seq<seq<Route>>, f: nat, r: Route) returns (grown: seq<seq<Route>>)
    requires f < |folders|
    ensures |grown| == |folders| && SizeUpTo(grown) == SizeUpTo(folders) + 1
    ensures forall g :: 0 <= g < |folders| ==> grown[g] == folders[g] + if g == f then [r] else []
  {
    SizeUpdate(folders, f, r);
    grown := folders[f := folders[f] + [r]];
  }

  /** File every route in its folder: no route is lost or filed twice, and folders keep the order. */
  method File(routes: seq<Route>) returns (folders: seq<seq<Route>>)
    ensures |folders| == FOLDERS && SizeUpTo(folders) == |routes|
    ensures forall f :: 0 <= f < FOLDERS ==> folders[f] == InFolder(routes, f)
  {
    folders := Empty(FOLDERS);
    for i := 0 to |routes|
      invariant |folders| == FOLDERS && SizeUpTo(folders) == i
      invariant forall f :: 0 <= f < FOLDERS ==> folders[f] == InFolder(routes[..i], f)
    {
      ghost var before := folders;
      folders := Append(folders, FolderOf(routes[i].path), routes[i]);
      forall f | 0 <= f < FOLDERS ensures folders[f] == InFolder(routes[..i + 1], f) {
        InFolderStep(routes, i, f);
        assert before[f] == InFolder(routes[..i], f);
      }
    }
    assert routes[..|routes|] == routes;
  }

  /** A route is in a folder exactly when it is one of the routes and that folder is its own. */
  lemma {:induction false} FiledInOwnFolder(routes: seq<Route>, f: nat, r: Route)
    ensures r in InFolder(routes, f) <==> r in routes && FolderOf(r.path) == f
  {
    if routes != [] {
      FiledInOwnFolder(routes[..|routes| - 1], f, r);
      assert routes == routes[..|routes| - 1] + [routes[|routes| - 1]];
    }
  }
}

/**
  The searches over the DESC listing of a task-definition family
  (FindRollbackTarget and FindLastTaskDefinition in ecs_util.go).

  The rollback target is the ARN listed right after the current one, the
  scan carrying its `found` flag from one page to the next. As written, the
  loop passes the page's NextToken on even when it is nil, and a request
  without a token lists the first page again: the search wraps around
  (`FindRollbackTargetAsWritten`). The model's `FindRollbackTarget` stops
  after the last page instead, which is what the error message of the empty
  page case intends.
 */
module Listing {
  import opened Wrappers
  import opened Text
  import opened Ecs
  import opened Client
  import opened EcsUtil

  /** The family of a task definition ARN: its name up to the first ':'. */
  function Family(arn: string): (family: string)
    ensures ':' !in family && '/' !in family
    ensures |family| <= |ArnToName(arn)| && family == ArnToName(arn)[..|family|]
    ensures |family| < |ArnToName(arn)| ==> ArnToName(arn)[|family|] == ':'
  {
    var name := ArnToName(arn);
    FirstOfSplit(name, ':');
    Split(name, ':')[0]
  }

  /** `family:revision` has family `family`, whatever comes before the last '/'. */
  lemma FamilyOfArn(prefix: string, family: string, revision: string)
    requires '/' !in family && ':' !in family && '/' !in revision
    ensures Family(prefix + "/" + family + ":" + revision) == family
  {
    var name := family + ":" + revision;
    assert prefix + "/" + family + ":" + revision == prefix + "/" + name;
    ArnToNameAfterSlash(prefix, name);
    assert name[|family|] == ':';
    FirstIndexOfUnique(name, ':', |family|);
    FirstOfSplit(name, ':');
  }

  /** The page a request lists: past the end of the listing there is nothing. */
  function PageAt(pages: seq<ListPage>, i: nat): ListPage {
    if i < |pages| then pages[i] else ListPage([])
  }

  /** How the scan of one page ends: with the target, or carrying the `found` flag on. */
  datatype Scanned = Hit(target: string) | Carry(found: bool)

  /** The inner loop over one page: an ARN seen after the current one is the target. */
  function Scan(arns: seq<string>, current: string, found: bool): Scanned
  {
    if arns == [] then Carry(found)
    else if found then Hit(arns[0])
    else Scan(arns[1..], current, arns[0] == current)
  }

  /** The inner loop of FindRollbackTarget, proved to compute `Scan`. */
  method ScanPage(arns: seq<string>, current: string, found0: bool) returns (r: Scanned)
    ensures r == Scan(arns, current, found0)
  {
    var found := found0;
    var i := 0;
    while i < |arns|
      invariant 0 <= i <= |arns|
      invariant Scan(arns, current, found0) == Scan(arns[i..], current, found)
    {
      assert arns[i..][1..] == arns[i + 1..];
      if found {
        return Hit(arns[i]);
      }
      if arns[i] == current {
        found := true;
      }
      i := i + 1;
    }
    return Carry(found);
  }

  // ---------------------------------------------------------------------------
  // FindRollbackTarget as written: a nil NextToken starts the listing again

  /**
    The loop as written, run for at most `fuel` requests; None when it is still
    going. After the last page, the next request carries a nil token and lists
    the first page again.
   */
  function FindRollbackTargetAsWritten(pages: seq<ListPage>, current: string, page: nat, found: bool, fuel: nat)
    : (r: Option<Result<string, Error>>)
    decreases fuel
  {
    if fuel == 0 then None
    else match PageAt(pages, page)
      case ListFailure(m) => Some(Failure(ApiError("ListTaskDefinitions", m)))
      case ListPage(arns) =>
        if arns == [] then Some(Failure(RollbackTargetNotFound))
        else match Scan(arns, current, found)
          case Hit(t) => Some(Success(t))
          case Carry(f) =>
            var next := if page + 1 < |pages| then page + 1 else 0;
            FindRollbackTargetAsWritten(pages, current, next, f, fuel - 1)
  }

  /** Rolling back from the oldest revision "rolls back" to the newest one. */
  lemma AsWrittenWrapsToNewest()
    ensures FindRollbackTargetAsWritten([ListPage(["td:3", "td:2", "td:1"])], "td:1", 0, false, 2)
      == Some(Success("td:3"))
  {
    var arns := ["td:3", "td:2", "td:1"];
    assert Scan(arns, "td:1", false) == Carry(true) by {
      assert arns[1..] == ["td:2", "td:1"];
      assert arns[1..][1..] == ["td:1"];
      assert arns[1..][1..][1..] == [];
    }
  }

  /** A family with a single revision "rolls back" to that same revision. */
  lemma AsWrittenSingleRevisionIsItself()
    ensures FindRollbackTargetAsWritten([ListPage(["td:1"])], "td:1", 0, false, 2) == Some(Success("td:1"))
  {
    assert ["td:1"][1..] == [];
  }

  /** Every page lists something and none fails. */
  ghost predicate AllListed(pages: seq<ListPage>) {
    |pages| > 0 && forall i :: 0 <= i < |pages| ==> pages[i].ListPage? && pages[i].arns != []
  }

  /** Scanning a page that does not hold `current`, without having found it, finds nothing. */
  lemma {:induction false} ScanAbsent(arns: seq<string>, current: string)
    requires current !in arns
    ensures Scan(arns, current, false) == Carry(false)
    decreases |arns|
  {
    if arns != [] {
      ScanAbsent(arns[1..], current);
    }
  }

  /** When the current ARN is not listed (a deregistered, INACTIVE revision) the loop never ends. */
  lemma {:induction false} AsWrittenAbsentNeverEnds(pages: seq<ListPage>, current: string, page: nat, fuel: nat)
    requires AllListed(pages) && page < |pages|
    requires forall i :: 0 <= i < |pages| ==> current !in pages[i].arns
    ensures FindRollbackTargetAsWritten(pages, current, page, false, fuel) == None
    decreases fuel
  {
    if fuel > 0 {
      ScanAbsent(pages[page].arns, current);
      var next := if page + 1 < |pages| then page + 1 else 0;
      AsWrittenAbsentNeverEnds(pages, current, next, fuel - 1);
    }
  }

  // ---------------------------------------------------------------------------
  // FindRollbackTarget, stopping after the last page

  /** The search over pages `page..`, ending with "not found" after the last page. */
  function Search(pages: seq<ListPage>, current: string, page: nat, found: bool): (r: Result<string, Error>)
    decreases |pages| - page
  {
    match PageAt(pages, page)
    case ListFailure(m) => Failure(ApiError("ListTaskDefinitions", m))
    case ListPage(arns) =>
      if arns == [] then Failure(RollbackTargetNotFound)
      else match Scan(arns, current, found)
        case Hit(t) => Success(t)
        case Carry(f) => if page + 1 < |pages| then Search(pages, current, page + 1, f) else Failure(RollbackTargetNotFound)
  }

  /**
    FindRollbackTarget: lists the family of `currentArn` page by page, newest
    first, and returns the ARN right after the current one.
   */
  method FindRollbackTarget(api: Api, currentArn: string) returns (r: Result<string, Error>)
    ensures r == Search(api.listTaskDefinitions(Family(currentArn)), currentArn, 0, false)
  {
    var pages := api.listTaskDefinitions(Family(currentArn));
    var found := false;
    var page := 0;
    while true
      invariant Search(pages, currentArn, 0, false) == Search(pages, currentArn, page, found)
      invariant page < |pages| || page == 0
      decreases |pages| - page
    {
      var out := PageAt(pages, page);
      if out.ListFailure? {
        return Failure(ApiError("ListTaskDefinitions", out.message));
      }
      if out.arns == [] {
        return Failure(RollbackTargetNotFound);
      }
      var scanned := ScanPage(out.arns, currentArn, found);
      if scanned.Hit? {
        return Success(scanned.target);
      }
      if page + 1 >= |pages| {
        return Failure(RollbackTargetNotFound);
      }
      found := scanned.found;
      page := page + 1;
    }
  }

  // ---------------------------------------------------------------------------
  // The search over pages is the search over the whole listing

  /** The pages' ARNs, one page after the other. */
  function Flatten(pages: seq<ListPage>): seq<string>
    requires forall i :: 0 <= i < |pages| ==> pages[i].ListPage?
  {
    if pages == [] then [] else pages[0].arns + Flatten(pages[1..])
  }

  /** The ARN that follows the first `current` in a list (or the head, once found). */
  function Follower(l: seq<string>, current: string, found: bool): Option<string>
  {
    if l == [] then None
    else if found then Some(l[0])
    else Follower(l[1..], current, l[0] == current)
  }

  lemma {:induction false} FollowerAppend(a: seq<string>, b: seq<string>, current: string, found: bool)
    ensures Follower(a + b, current, found)
      == match Scan(a, current, found) { case Hit(t) => Some(t) case Carry(f) => Follower(b, current, f) }
    decreases |a|
  {
    if a != [] {
      assert (a + b)[0] == a[0] && (a + b)[1..] == a[1..] + b;
      if !found {
        FollowerAppend(a[1..], b, current, a[0] == current);
      }
    } else {
      assert a + b == b;
    }
  }

  /** Over well-formed pages, the search from page `page` is the follower in the rest of the listing. */
  lemma {:induction false} SearchIsFollower(pages: seq<ListPage>, current: string, page: nat, found: bool)
    requires AllListed(pages) && page < |pages|
    ensures Search(pages, current, page, found)
      == match Follower(Flatten(pages[page..]), current, found)
         { case Some(t) => Success(t) case None => Failure(RollbackTargetNotFound) }
    decreases |pages| - page
  {
    var rest := pages[page..];
    assert rest[1..] == pages[page + 1..];
    FollowerAppend(pages[page].arns, Flatten(rest[1..]), current, found);
    var scanned := Scan(pages[page].arns, current, found);
    if page + 1 < |pages| && scanned.Carry? {
      SearchIsFollower(pages, current, page + 1, scanned.found);
    } else if scanned.Carry? {
      assert Flatten(rest[1..]) == [];
    }
  }

  /** The position of the first `x` in `s`. */
  function IndexOf(s: seq<string>, x: string): (k: nat)
    requires x in s
    ensures k < |s| && s[k] == x && x !in s[..k]
  {
    if s[0] == x then 0
    else
      var k := IndexOf(s[1..], x);
      assert s[..k + 1] == [s[0]] + s[1..][..k];
      k + 1
  }

  lemma {:induction false} FollowerIsNext(l: seq<string>, current: string)
    ensures Follower(l, current, false)
      == if current in l && IndexOf(l, current) + 1 < |l| then Some(l[IndexOf(l, current) + 1]) else None
    decreases |l|
  {
    if l != [] && l[0] != current {
      FollowerIsNext(l[1..], current);
    }
  }

  /**
    With every page listing something, FindRollbackTarget succeeds exactly
    when the current ARN is listed and is not the last (oldest) one listed,
    and then returns the ARN listed right after its first occurrence.
   */
  lemma RollbackTargetIsNext(pages: seq<ListPage>, current: string)
    requires AllListed(pages)
    ensures var l := Flatten(pages);
      Search(pages, current, 0, false)
        == if current in l && IndexOf(l, current) + 1 < |l| then Success(l[IndexOf(l, current) + 1])
           else Failure(RollbackTargetNotFound)
  {
    SearchIsFollower(pages, current, 0, false);
    assert pages[0..] == pages;
    FollowerIsNext(Flatten(pages), current);
  }

  /** The search never wraps: rolling back from the oldest revision finds no target. */
  lemma OldestHasNoTarget()
    ensures Search([ListPage(["td:3", "td:2", "td:1"])], "td:1", 0, false) == Failure(RollbackTargetNotFound)
  {
    var arns := ["td:3", "td:2", "td:1"];
    assert arns[1..] == ["td:2", "td:1"];
    assert arns[1..][1..] == ["td:1"];
    assert arns[1..][1..][1..] == [];
  }

  // ---------------------------------------------------------------------------
  // FindLastTaskDefinition

  /** FindLastTaskDefinition: the newest ARN of the family named before the first ':' of `tdName`. */
  function FindLastTaskDefinition(api: Api, tdName: string): (r: Result<string, Error>)
    ensures var family := Split(tdName, ':')[0]; var first := PageAt(api.listTaskDefinitions(family), 0);
      && (r.Success? <==> first.ListPage? && first.arns != [])
      && (r.Success? ==> r.value == first.arns[0])
      && (first.ListPage? && first.arns == [] ==> r == Failure(RollbackTargetNotFound))
  {
    var family := Split(tdName, ':')[0];
    match PageAt(api.listTaskDefinitions(family), 0)
    case ListFailure(m) => Failure(ApiError("ListTaskDefinitions", m))
    case ListPage(arns) => if arns == [] then Failure(RollbackTargetNotFound) else Success(arns[0])
  }
}

/**
 Loading a ruleset: includes are followed depth first, a definition overrides an earlier one of
 the same id and keeps its place, and disabled rules are dropped at the end.
 */
module Ruleset {
  import opened Wrappers

  type Path = string

  // A rule as it is written; `body` is everything but its id and whether it is enabled.
  datatype Rule = Rule(id: string, enabled: bool, body: string)

  datatype Item = Include(name: string) | Definition(rule: Rule) | NotMapping

  datatype Document = Rules(items: seq<Item>) | NoMapping

  datatype Error =
    | EntryNotMapping
    | MissingId
    | OutsideBuiltins(name: string)
    | Cycle(chain: seq<Path>)
    | NotFound(path: Path)
    | DocumentNotMapping(path: Path)

  // The files there are, how an include's name leads to a path (a built-in name may be refused),
  // and the directory of a path.
  datatype Disk = Disk(files: map<Path, Document>, resolve: (string, Path) -> Option<Path>, parent: Path -> Path)

  function Elements(chain: seq<Path>): set<Path> {
    set p | p in chain
  }

  /** Every definition in the order the depth-first walk meets it, or the first error. */
  function Walk(disk: Disk, items: seq<Item>, dir: Path, chain: seq<Path>): Result<seq<Rule>, Error>
    decreases |disk.files.Keys - Elements(chain)|, |items|
  {
    if items == [] then Ok([])
    else
      match Met(disk, items[0], dir, chain)
      case Err(e) => Err(e)
      case Ok(first) => After(first, Walk(disk, items[1..], dir, chain))
  }

  /** What one entry contributes. */
  function Met(disk: Disk, item: Item, dir: Path, chain: seq<Path>): Result<seq<Rule>, Error>
    decreases |disk.files.Keys - Elements(chain)|, 0
  {
    match item
    case NotMapping => Err(EntryNotMapping)
    case Definition(rule) => if rule.id == "" then Err(MissingId) else Ok([rule])
    case Include(name) =>
      match disk.resolve(name, dir)
      case None => Err(OutsideBuiltins(name))
      case Some(path) =>
        if path in chain then Err(Cycle(chain + [path]))
        else if path !in disk.files then Err(NotFound(path))
        else
          match disk.files[path]
          case NoMapping => Err(DocumentNotMapping(path))
          case Rules(inner) =>
            ChainGrows(disk, chain, path);
            Walk(disk, inner, disk.parent(path), chain + [path])
  }

  function After(done: seq<Rule>, later: Result<seq<Rule>, Error>): Result<seq<Rule>, Error> {
    match later
    case Err(e) => Err(e)
    case Ok(rest) => Ok(done + rest)
  }

  lemma AfterNothing(later: Result<seq<Rule>, Error>)
    ensures After([], later) == later
  {
    if later.Ok? { assert [] + later.value == later.value; }
  }

  lemma AfterBoth(done: seq<Rule>, own: seq<Rule>, later: Result<seq<Rule>, Error>)
    ensures After(done, After(own, later)) == After(done + own, later)
  {
    if later.Ok? { assert done + (own + later.value) == done + own + later.value; }
  }

  lemma ChainGrows(disk: Disk, chain: seq<Path>, path: Path)
    requires path in disk.files && path !in chain
    ensures |disk.files.Keys - Elements(chain + [path])| < |disk.files.Keys - Elements(chain)|
  {
    var before, after := disk.files.Keys - Elements(chain), disk.files.Keys - Elements(chain + [path]);
    assert after == before - {path};
    assert path in before;
  }

  // ----- overrides

  function Latest(rules: seq<Rule>): (m: map<string, Rule>) {
    if rules == [] then map[]
    else Latest(rules[..|rules| - 1])[rules[|rules| - 1].id := rules[|rules| - 1]]
  }

  function Order(rules: seq<Rule>): seq<string> {
    if rules == [] then []
    else
      var front := Order(rules[..|rules| - 1]);
      var id := rules[|rules| - 1].id;
      if id in front then front else front + [id]
  }

  function Enabled(order: seq<string>, latest: map<string, Rule>): seq<Rule>
    requires forall i :: 0 <= i < |order| ==> order[i] in latest
  {
    if order == [] then []
    else
      var rule := latest[order[|order| - 1]];
      Enabled(order[..|order| - 1], latest) + if rule.enabled then [rule] else []
  }

  lemma {:induction false} OrderIsLatest(rules: seq<Rule>)
    ensures forall id :: id in Order(rules) <==> id in Latest(rules)
    ensures forall id :: id in Latest(rules) ==> Latest(rules)[id].id == id
    ensures forall i, j :: 0 <= i < j < |Order(rules)| ==> Order(rules)[i] != Order(rules)[j]
  {
    if rules != [] { OrderIsLatest(rules[..|rules| - 1]); }
  }

  function Loaded(rules: seq<Rule>): seq<Rule> {
    OrderIsLatest(rules);
    Enabled(Order(rules), Latest(rules))
  }

  // ----- the loader

  class Loader {
    const disk: Disk
    var collected: map<string, Rule>
    var order: seq<string>
    ghost var met: seq<Rule>

    ghost predicate Valid()
      reads this
    {
      collected == Latest(met) && order == Order(met)
    }

    constructor (disk: Disk)
      ensures Valid() && this.disk == disk && met == []
    {
      this.disk, collected, order, met := disk, map[], [], [];
    }

    /** One entry of `process`. */
    method Meet(item: Item, relativeTo: Path, chain: seq<Path>) returns (failure: Option<Error>)
      requires Valid()
      modifies this
      ensures Valid()
      ensures match Met(disk, item, relativeTo, chain)
              case Ok(rules) => failure == None && met == old(met) + rules
              case Err(e) => failure == Some(e)
      decreases |disk.files.Keys - Elements(chain)|, 0
    {
      match item
      case NotMapping =>
        return Some(EntryNotMapping);
      case Include(name) =>
        var found := disk.resolve(name, relativeTo);
        if found.None? { return Some(OutsideBuiltins(name)); }
        var path := found.value;
        if path in chain { return Some(Cycle(chain + [path])); }
        if path !in disk.files { return Some(NotFound(path)); }
        var document := disk.files[path];
        if document.NoMapping? { return Some(DocumentNotMapping(path)); }
        ChainGrows(disk, chain, path);
        failure := Process(document.items, disk.parent(path), chain + [path]);
      case Definition(rule) =>
        if rule.id == "" { return Some(MissingId); }
        OrderIsLatest(met);
        if rule.id !in collected { order := order + [rule.id]; }
        collected := collected[rule.id := rule];
        met := met + [rule];
        assert met[..|met| - 1] == old(met);
        return None;
    }

    /** `process` */
    method Process(items: seq<Item>, relativeTo: Path, chain: seq<Path>) returns (failure: Option<Error>)
      requires Valid()
      modifies this
      ensures Valid()
      ensures match Walk(disk, items, relativeTo, chain)
              case Ok(rules) => failure == None && met == old(met) + rules
              case Err(e) => failure == Some(e)
      decreases |disk.files.Keys - Elements(chain)|, 1
    {
      ghost var done: seq<Rule> := [];
      assert items[0..] == items;
      AfterNothing(Walk(disk, items, relativeTo, chain));
      for i := 0 to |items|
        invariant Valid() && met == old(met) + done
        invariant Walk(disk, items, relativeTo, chain) == After(done, Walk(disk, items[i..], relativeTo, chain))
      {
        assert items[i..][0] == items[i] && items[i..][1..] == items[i + 1..];
        ghost var before := met;
        failure := Meet(items[i], relativeTo, chain);
        if failure.Some? { return; }
        ghost var own := Met(disk, items[i], relativeTo, chain).value;
        AfterBoth(done, own, Walk(disk, items[i + 1..], relativeTo, chain));
        assert old(met) + done + own == old(met) + (done + own);
        done := done + own;
      }
      assert done + [] == done;
      return None;
    }
  }

  /** `load_ruleset` */
  method Load(disk: Disk, entries: seq<Item>, base: Path) returns (r: Result<seq<Rule>, Error>)
    ensures r == match Walk(disk, entries, base, []) case Ok(rules) => Ok(Loaded(rules)) case Err(e) => Err(e)
  {
    var loader := new Loader(disk);
    var failure := loader.Process(entries, base, []);
    if failure.Some? { return Err(failure.value); }
    OrderIsLatest(loader.met);
    var rules := [];
    for i := 0 to |loader.order|
      invariant loader.Valid() && loader.met == Walk(disk, entries, base, []).value
      invariant rules == Enabled(loader.order[..i], loader.collected)
    {
      var rule := loader.collected[loader.order[i]];
      if rule.enabled { rules := rules + [rule]; }
      assert loader.order[..i + 1][..i] == loader.order[..i];
    }
    assert loader.order[..|loader.order|] == loader.order;
    assert [] + loader.met == loader.met;
    r := Ok(rules);
  }

  // ----- cycles

  /** Some entry of the list includes this path. */
  ghost predicate Includes(disk: Disk, items: seq<Item>, dir: Path, path: Path) {
    exists i :: 0 <= i < |items| && items[i].Include? && disk.resolve(items[i].name, dir) == Some(path)
  }

  /** A path of includes: the first is included by the list, each next one by the one before. */
  ghost predicate IncludePath(disk: Disk, items: seq<Item>, dir: Path, paths: seq<Path>)
    decreases |paths|
  {
    paths == [] ||
    (Includes(disk, items, dir, paths[0]) &&
     (|paths| == 1 ||
      (paths[0] in disk.files && disk.files[paths[0]].Rules? &&
       IncludePath(disk, disk.files[paths[0]].items, disk.parent(paths[0]), paths[1..]))))
  }

  ghost predicate Distinct(paths: seq<Path>) {
    forall i, j :: 0 <= i < j < |paths| ==> paths[i] != paths[j]
  }

  /** A walk that meets no error has walked every file its entries include. */
  lemma {:induction false} WalkEnters(disk: Disk, items: seq<Item>, dir: Path, chain: seq<Path>, path: Path)
    requires Walk(disk, items, dir, chain).Ok? && Includes(disk, items, dir, path)
    ensures path !in chain && path in disk.files && disk.files[path].Rules?
    ensures Walk(disk, disk.files[path].items, disk.parent(path), chain + [path]).Ok?
    decreases |items|
  {
    var i :| 0 <= i < |items| && items[i].Include? && disk.resolve(items[i].name, dir) == Some(path);
    assert Met(disk, items[0], dir, chain).Ok?;
    if i > 0 {
      assert items[1..][i - 1] == items[i];
      WalkEnters(disk, items[1..], dir, chain, path);
    }
  }

  /** After a load without error no path of includes, however long, meets a file twice or leads
      to one that is missing. */
  lemma {:induction false} LoadedHasNoCycle(disk: Disk, items: seq<Item>, dir: Path, chain: seq<Path>, paths: seq<Path>)
    requires Walk(disk, items, dir, chain).Ok? && IncludePath(disk, items, dir, paths)
    ensures Distinct(paths)
    ensures forall i :: 0 <= i < |paths| ==> paths[i] in disk.files && paths[i] !in chain
    decreases |paths|
  {
    if paths != [] {
      WalkEnters(disk, items, dir, chain, paths[0]);
      if |paths| > 1 {
        LoadedHasNoCycle(disk, disk.files[paths[0]].items, disk.parent(paths[0]), chain + [paths[0]], paths[1..]);
        forall i | 1 <= i < |paths| ensures paths[i] in disk.files && paths[i] !in chain && paths[i] != paths[0] {
          assert paths[i] == paths[1..][i - 1];
        }
        forall i, j | 0 <= i < j < |paths| ensures paths[i] != paths[j] {
          if i > 0 { assert paths[i] == paths[1..][i - 1] && paths[j] == paths[1..][j - 1]; }
        }
      }
    }
  }

  /** What a reported cycle shows: beyond the chain so far, a path of includes whose last file is
      already on the way. */
  lemma {:induction false} ReportedCycleIsOne(disk: Disk, items: seq<Item>, dir: Path, chain: seq<Path>, cycle: seq<Path>)
    requires Walk(disk, items, dir, chain) == Err(Cycle(cycle))
    ensures |cycle| > |chain| && cycle[..|chain|] == chain
    ensures IncludePath(disk, items, dir, cycle[|chain|..])
    ensures cycle[|cycle| - 1] in cycle[..|cycle| - 1]
    decreases |disk.files.Keys - Elements(chain)|, |items|
  {
    var first := Met(disk, items[0], dir, chain);
    if first.Ok? {
      ReportedCycleIsOne(disk, items[1..], dir, chain, cycle);
      PathFromMore(disk, items, dir, cycle[|chain|..]);
    } else {
      var path := disk.resolve(items[0].name, dir).value;
      assert Includes(disk, items, dir, path);
      if path in chain {
        assert cycle[|chain|..] == [path] && cycle[..|chain|] == chain;
      } else {
        ChainGrows(disk, chain, path);
        ReportedCycleIsOne(disk, disk.files[path].items, disk.parent(path), chain + [path], cycle);
        var paths := cycle[|chain|..];
        assert paths[0] == cycle[..|chain| + 1][|chain|] == path && paths[1..] == cycle[|chain| + 1..];
        assert cycle[..|chain|] == cycle[..|chain| + 1][..|chain|] == chain;
      }
    }
  }

  lemma PathFromMore(disk: Disk, items: seq<Item>, dir: Path, paths: seq<Path>)
    requires items != [] && paths != [] && IncludePath(disk, items[1..], dir, paths)
    ensures IncludePath(disk, items, dir, paths)
  {
    var i :| 0 <= i < |items[1..]| && items[1..][i].Include? && disk.resolve(items[1..][i].name, dir) == Some(paths[0]);
    assert items[i + 1] == items[1..][i];
  }

  /** Taken together, for a whole load: a reported cycle is a real one, and one that goes through
      has none. */
  lemma CyclesExactly(disk: Disk, entries: seq<Item>, base: Path)
    ensures var r := Walk(disk, entries, base, []);
            && (r.Ok? ==> forall paths :: IncludePath(disk, entries, base, paths) ==> Distinct(paths))
            && (r.Err? && r.error.Cycle? ==>
                  var cycle := r.error.chain;
                  && cycle != []
                  && IncludePath(disk, entries, base, cycle)
                  && cycle[|cycle| - 1] in cycle[..|cycle| - 1])
  {
    var r := Walk(disk, entries, base, []);
    if r.Ok? {
      forall paths | IncludePath(disk, entries, base, paths) ensures Distinct(paths) {
        LoadedHasNoCycle(disk, entries, base, [], paths);
      }
    } else if r.error.Cycle? {
      ReportedCycleIsOne(disk, entries, base, [], r.error.chain);
      assert r.error.chain[0..] == r.error.chain;
    }
  }

  // ----- what is loaded

  ghost predicate LastOfItsId(rules: seq<Rule>, i: nat)
    requires i < |rules|
  {
    forall j :: i < j < |rules| ==> rules[j].id != rules[i].id
  }

  lemma {:induction false} LatestIsLast(rules: seq<Rule>, rule: Rule)
    ensures (rule.id in Latest(rules) && Latest(rules)[rule.id] == rule) <==>
            exists i :: 0 <= i < |rules| && rules[i] == rule && LastOfItsId(rules, i)
  {
    if rules != [] {
      var n := |rules| - 1;
      var front := rules[..n];
      LatestIsLast(front, rule);
      if i :| 0 <= i < n && front[i] == rule && LastOfItsId(front, i) {
        if rules[n].id != rule.id {
          forall j | i < j < |rules| ensures rules[j].id != rules[i].id { if j < n { assert rules[j] == front[j]; } }
          assert LastOfItsId(rules, i) && rules[i] == rule;
        }
      }
      if i :| 0 <= i < n && rules[i] == rule && LastOfItsId(rules, i) {
        forall j | i < j < n ensures front[j].id != front[i].id { assert rules[j] == front[j]; }
        assert LastOfItsId(front, i) && front[i] == rule;
      }
      if rules[n] == rule { assert LastOfItsId(rules, n); }
    }
  }

  lemma {:induction false} EnabledIn(order: seq<string>, latest: map<string, Rule>, rule: Rule)
    requires forall i :: 0 <= i < |order| ==> order[i] in latest
    ensures rule in Enabled(order, latest) <==> rule.enabled && exists i :: 0 <= i < |order| && latest[order[i]] == rule
  {
    if order != [] {
      var n := |order| - 1;
      EnabledIn(order[..n], latest, rule);
      assert forall i :: 0 <= i < n ==> order[..n][i] == order[i];
      if latest[order[n]] == rule { assert order[n] in latest; }
    }
  }

  /** The last definition of each id, if that one is enabled, and nothing else. */
  lemma LoadedIsLastEnabled(rules: seq<Rule>, rule: Rule)
    ensures rule in Loaded(rules) <==>
            rule.enabled && exists i :: 0 <= i < |rules| && rules[i] == rule && LastOfItsId(rules, i)
  {
    var order, latest := Order(rules), Latest(rules);
    OrderIsLatest(rules);
    EnabledIn(order, latest, rule);
    LatestIsLast(rules, rule);
    if rule.id in latest && latest[rule.id] == rule {
      var i :| 0 <= i < |order| && order[i] == rule.id;
      assert latest[order[i]] == rule;
    }
  }

  /** Where an id is first defined. */
  function FirstAt(rules: seq<Rule>, id: string): nat {
    if rules == [] || rules[0].id == id then 0 else 1 + FirstAt(rules[1..], id)
  }

  lemma {:induction false} FirstStays(front: seq<Rule>, last: Rule, id: string)
    ensures (exists r :: r in front && r.id == id) ==> FirstAt(front + [last], id) == FirstAt(front, id) < |front|
    ensures !(exists r :: r in front && r.id == id) && last.id == id ==> FirstAt(front + [last], id) == |front|
  {
    if front == [] {
      assert front + [last] == [last];
    } else {
      assert (front + [last])[1..] == front[1..] + [last];
      FirstStays(front[1..], last, id);
      assert front[0] in front;
      if r :| r in front && r.id == id && r != front[0] { assert r in front[1..]; }
    }
  }

  lemma {:induction false} LatestKeys(rules: seq<Rule>, id: string)
    ensures id in Latest(rules) <==> exists r :: r in rules && r.id == id
  {
    if rules != [] {
      var n := |rules| - 1;
      LatestKeys(rules[..n], id);
      if r :| r in rules[..n] && r.id == id { assert r in rules; }
      if r :| r in rules && r.id == id && r != rules[n] { assert r in rules[..n]; }
      assert rules[n] in rules;
    }
  }

  lemma {:induction false} OrderByFirst(rules: seq<Rule>)
    ensures forall i, j :: 0 <= i < j < |Order(rules)| ==>
              FirstAt(rules, Order(rules)[i]) < FirstAt(rules, Order(rules)[j])
  {
    if rules != [] {
      var n := |rules| - 1;
      var front, order := rules[..n], Order(rules[..n]);
      assert rules == front + [rules[n]];
      OrderByFirst(front);
      OrderIsLatest(front);
      forall i | 0 <= i < |order| ensures FirstAt(rules, order[i]) == FirstAt(front, order[i]) < n {
        LatestKeys(front, order[i]);
        FirstStays(front, rules[n], order[i]);
      }
      if rules[n].id !in order {
        LatestKeys(front, rules[n].id);
        FirstStays(front, rules[n], rules[n].id);
      }
    }
  }

  lemma {:induction false} EnabledFollowsOrder(rules: seq<Rule>, order: seq<string>, latest: map<string, Rule>)
    requires forall i :: 0 <= i < |order| ==> order[i] in latest
    requires forall id :: id in latest ==> latest[id].id == id
    requires forall i, j :: 0 <= i < j < |order| ==> FirstAt(rules, order[i]) < FirstAt(rules, order[j])
    ensures forall r :: r in Enabled(order, latest) ==> r.id in order
    ensures forall i, j :: 0 <= i < j < |Enabled(order, latest)| ==>
              FirstAt(rules, Enabled(order, latest)[i].id) < FirstAt(rules, Enabled(order, latest)[j].id)
  {
    if order != [] {
      var n := |order| - 1;
      var front := Enabled(order[..n], latest);
      EnabledFollowsOrder(rules, order[..n], latest);
      forall r | r in front ensures r.id in order && FirstAt(rules, r.id) < FirstAt(rules, order[n]) {
        var i :| 0 <= i < n && order[..n][i] == r.id;
        assert order[i] == r.id;
      }
    }
  }

  /** They stand in the order their ids first appeared, so each id stands once. */
  lemma LoadedByFirstAppearance(rules: seq<Rule>)
    ensures forall i, j :: 0 <= i < j < |Loaded(rules)| ==>
              FirstAt(rules, Loaded(rules)[i].id) < FirstAt(rules, Loaded(rules)[j].id)
  {
    OrderIsLatest(rules);
    OrderByFirst(rules);
    EnabledFollowsOrder(rules, Order(rules), Latest(rules));
  }

  // ----- when a ruleset loads

  /** The list of entries a path of includes leads to, and the directory it stands in. */
  ghost predicate LeadsTo(disk: Disk, items: seq<Item>, dir: Path, paths: seq<Path>, list: seq<Item>, at: Path) {
    if paths == [] then list == items && at == dir
    else
      var last := paths[|paths| - 1];
      last in disk.files && disk.files[last] == Rules(list) && at == disk.parent(last)
  }

  /** The entry cannot be used where it stands; which error that is. */
  ghost predicate Fails(disk: Disk, item: Item, dir: Path, e: Error) {
    match item
    case NotMapping => e == EntryNotMapping
    case Definition(rule) => rule.id == "" && e == MissingId
    case Include(name) =>
      match disk.resolve(name, dir)
      case None => e == OutsideBuiltins(name)
      case Some(path) =>
        || (path !in disk.files && e == NotFound(path))
        || (path in disk.files && disk.files[path] == NoMapping && e == DocumentNotMapping(path))
  }

  /** Following these includes, the walk comes back to a file it is in, or to an entry that cannot
      be used. */
  ghost predicate Spoils(disk: Disk, items: seq<Item>, dir: Path, chain: seq<Path>, paths: seq<Path>, e: Error) {
    && IncludePath(disk, items, dir, paths)
    && if e.Cycle? then
         paths != [] && e.chain == chain + paths && paths[|paths| - 1] in chain + paths[..|paths| - 1]
       else
         exists list, at, i :: LeadsTo(disk, items, dir, paths, list, at) && 0 <= i < |list| && Fails(disk, list[i], at, e)
  }

  lemma SpoilsFromMore(disk: Disk, items: seq<Item>, dir: Path, chain: seq<Path>, paths: seq<Path>, e: Error)
    requires items != [] && Spoils(disk, items[1..], dir, chain, paths, e)
    ensures Spoils(disk, items, dir, chain, paths, e)
  {
    if paths != [] {
      PathFromMore(disk, items, dir, paths);
      if !e.Cycle? {
        var list, at, i :| LeadsTo(disk, items[1..], dir, paths, list, at) && 0 <= i < |list| && Fails(disk, list[i], at, e);
        assert LeadsTo(disk, items, dir, paths, list, at);
      }
    } else {
      var i :| 0 <= i < |items[1..]| && Fails(disk, items[1..][i], dir, e);
      assert LeadsTo(disk, items, dir, [], items, dir) && Fails(disk, items[i + 1], dir, e);
    }
  }

  lemma SpoilsFromBelow(disk: Disk, items: seq<Item>, dir: Path, chain: seq<Path>, path: Path, paths: seq<Path>, e: Error)
    requires items != [] && items[0].Include? && disk.resolve(items[0].name, dir) == Some(path)
    requires path in disk.files && disk.files[path].Rules?
    requires Spoils(disk, disk.files[path].items, disk.parent(path), chain + [path], paths, e)
    ensures Spoils(disk, items, dir, chain, [path] + paths, e)
  {
    var all := [path] + paths;
    assert Includes(disk, items, dir, path);
    assert all[1..] == paths;
    if e.Cycle? {
      assert chain + [path] + paths == chain + all;
      assert chain + [path] + paths[..|paths| - 1] == chain + all[..|all| - 1];
    } else {
      var list, at, i :| LeadsTo(disk, disk.files[path].items, disk.parent(path), paths, list, at) &&
                         0 <= i < |list| && Fails(disk, list[i], at, e);
      assert LeadsTo(disk, items, dir, all, list, at);
    }
  }

  /** Every error the loader reports is one, and this is where: some includes lead to an entry
      that fails in just that way, or around in a circle. */
  lemma {:induction false} ErrorIsReal(disk: Disk, items: seq<Item>, dir: Path, chain: seq<Path>) returns (paths: seq<Path>)
    requires Walk(disk, items, dir, chain).Err?
    ensures Spoils(disk, items, dir, chain, paths, Walk(disk, items, dir, chain).error)
    decreases |disk.files.Keys - Elements(chain)|, |items|
  {
    var e := Walk(disk, items, dir, chain).error;
    var first := Met(disk, items[0], dir, chain);
    if first.Ok? {
      paths := ErrorIsReal(disk, items[1..], dir, chain);
      SpoilsFromMore(disk, items, dir, chain, paths, e);
    } else if Fails(disk, items[0], dir, e) {
      paths := [];
      assert LeadsTo(disk, items, dir, [], items, dir);
    } else {
      var path := disk.resolve(items[0].name, dir).value;
      assert Includes(disk, items, dir, path);
      if path in chain {
        paths := [path];
      } else {
        ChainGrows(disk, chain, path);
        var below := ErrorIsReal(disk, disk.files[path].items, disk.parent(path), chain + [path]);
        SpoilsFromBelow(disk, items, dir, chain, path, below, e);
        paths := [path] + below;
      }
    }
  }

  lemma {:induction false} WalkMeets(disk: Disk, items: seq<Item>, dir: Path, chain: seq<Path>, i: nat, e: Error)
    requires Walk(disk, items, dir, chain).Ok? && i < |items|
    ensures !Fails(disk, items[i], dir, e)
    decreases |items|
  {
    assert Met(disk, items[0], dir, chain).Ok?;
    if i > 0 {
      assert items[1..][i - 1] == items[i];
      WalkMeets(disk, items[1..], dir, chain, i - 1, e);
    }
  }

  lemma {:induction false} LoadedIsSound(disk: Disk, items: seq<Item>, dir: Path, chain: seq<Path>, paths: seq<Path>, list: seq<Item>, at: Path, i: nat, e: Error)
    requires Walk(disk, items, dir, chain).Ok? && IncludePath(disk, items, dir, paths)
    requires LeadsTo(disk, items, dir, paths, list, at) && i < |list|
    ensures !Fails(disk, list[i], at, e)
    decreases |paths|
  {
    if paths == [] {
      WalkMeets(disk, items, dir, chain, i, e);
    } else {
      WalkEnters(disk, items, dir, chain, paths[0]);
      LoadedIsSound(disk, disk.files[paths[0]].items, disk.parent(paths[0]), chain + [paths[0]], paths[1..], list, at, i, e);
    }
  }

  /** A load goes through if and only if no includes lead around in a circle or to an entry that
      is no mapping, has no id, names a file outside the built-in ones, or one that is missing or
      no mapping. */
  lemma LoadsExactly(disk: Disk, entries: seq<Item>, base: Path)
    ensures Walk(disk, entries, base, []).Ok? <==>
            forall paths, e :: IncludePath(disk, entries, base, paths) ==> !Spoils(disk, entries, base, [], paths, e)
  {
    var r := Walk(disk, entries, base, []);
    if r.Ok? {
      forall paths, e | IncludePath(disk, entries, base, paths) ensures !Spoils(disk, entries, base, [], paths, e) {
        LoadedHasNoCycle(disk, entries, base, [], paths);
        forall list, at, i | LeadsTo(disk, entries, base, paths, list, at) && 0 <= i < |list| ensures !Fails(disk, list[i], at, e) {
          LoadedIsSound(disk, entries, base, [], paths, list, at, i, e);
        }
      }
    } else {
      var paths := ErrorIsReal(disk, entries, base, []);
    }
  }
}

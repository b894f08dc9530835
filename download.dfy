/**
 * The download stage: every painting is handed to a worker exactly once,
 * and the worker either counts it as having no URI, counts it as already on
 * disk, or fetches its upgraded URI into `<imagesDir>/<id>.jpg`, tallying
 * the outcome in four counters.
 *
 * The source runs the workers concurrently, but they share nothing except
 * commutative counter increments and the files they write; the model
 * processes the paintings in sequence (see `OrderIndependent` for why any
 * order gives the same totals when ids are distinct). The network and the
 * file system are a `Disk` object: a set of existing paths and an oracle
 * that decides the outcome of each request.
 *
 * The run is stated over a `Plan`, the function that tells which URL a
 * painting is fetched from and which file it is saved to. The program's own
 * plan is `PlanFor(imagesDir)`; the counting lemmas hold for any plan, and
 * the ones about files need only that the plan keeps ids apart.
 */
module Download {
  import opened Wrappers
  import opened Decimal
  import opened Rewrite
  import opened Catalog

  /** What a worker reads from a painting. */
  datatype Item = Item(id: int, uri: string)

  /** One call of `downloadFile`: the URL fetched and the file written. */
  datatype Request = Request(url: string, path: string)

  /**
   * How `downloadFile` ends. It fails without a file when the GET fails, the
   * status is not 200 or the file cannot be created; it fails leaving a
   * partial file when the copy of the body breaks off.
   */
  datatype FetchResult = Saved | Failed(leftFile: bool) {
    predicate LeavesFile() {
      Saved? || leftFile
    }
  }

  /** The network: what each request would end in. */
  type Net = Request -> FetchResult

  /** Where a painting is fetched from and saved to. */
  type Plan = Item -> Request

  /** The four counters of `dlStats`. */
  datatype Stats = Stats(existed: nat, err: nat, noURI: nat, downloaded: nat) {

    function Plus(o: Stats): Stats {
      Stats(existed + o.existed, err + o.err, noURI + o.noURI, downloaded + o.downloaded)
    }

    /** Paintings counted so far: each lands in exactly one of these three counters. */
    function Processed(): nat {
      existed + noURI + downloaded
    }

    /** No counter of this is above the same counter of `o`. */
    predicate AtMost(o: Stats) {
      existed <= o.existed && err <= o.err && noURI <= o.noURI && downloaded <= o.downloaded
    }
  }

  const Zero: Stats := Stats(0, 0, 0, 0)

  /** The state the workers share: existing files, counters, and the requests sent so far. */
  datatype World = World(files: set<string>, stats: Stats, requests: seq<Request>)

  /** `path.Join(imagesDir, fmt.Sprintf("%d.jpg", id))`, without the path cleaning. */
  function DestPath(dir: string, id: int): string {
    dir + "/" + FormatInt(id) + ".jpg"
  }

  /** The request a worker sends for a painting it has to fetch. */
  function RequestFor(dir: string, it: Item): Request {
    Request(Upgrade(it.uri), DestPath(dir, it.id))
  }

  /** The program's plan: the upgraded URI, saved under the image directory by id. */
  function PlanFor(dir: string): Plan {
    it => RequestFor(dir, it)
  }

  /** Paintings with different ids are saved to different files. */
  ghost predicate SeparatesIds(plan: Plan) {
    forall a: Item, b: Item :: plan(a).path == plan(b).path ==> a.id == b.id
  }

  /** One painting through the worker body. */
  function Step(plan: Plan, net: Net, w: World, it: Item): World {
    if it.uri == "" then
      w.(stats := w.stats.(noURI := w.stats.noURI + 1))
    else if plan(it).path in w.files then
      w.(stats := w.stats.(existed := w.stats.existed + 1))
    else
      var req := plan(it);
      var res := net(req);
      World(
        if res.LeavesFile() then w.files + {req.path} else w.files,
        w.stats.(err := if res.Failed? then w.stats.err + 1 else w.stats.err,
                 downloaded := w.stats.downloaded + 1),
        w.requests + [req])
  }

  /** All paintings through the workers, one after another. */
  function Run(plan: Plan, net: Net, w: World, items: seq<Item>): World {
    if items == [] then w
    else Step(plan, net, Run(plan, net, w, items[..|items| - 1]), items[|items| - 1])
  }

  function CountNoUri(items: seq<Item>): (n: nat)
    ensures n <= |items|
  {
    if items == [] then 0
    else CountNoUri(items[..|items| - 1]) + (if items[|items| - 1].uri == "" then 1 else 0)
  }

  function CountFailed(net: Net, reqs: seq<Request>): (n: nat)
    ensures n <= |reqs|
  {
    if reqs == [] then 0
    else CountFailed(net, reqs[..|reqs| - 1]) + (if net(reqs[|reqs| - 1]).Failed? then 1 else 0)
  }

  predicate DistinctIds(items: seq<Item>) {
    forall a, b :: 0 <= a < b < |items| ==> items[a].id != items[b].id
  }

  // ---------------------------------------------------------------------------
  // One painting

  /**
   * The per-painting policy, in priority order: no URI, then file already
   * there, then exactly one fetch of the upgraded URI into `<dir>/<id>.jpg`;
   * a fetch always counts as downloaded and also as an error when it failed.
   */
  lemma StepPolicy(dir: string, net: Net, w: World, it: Item)
    ensures var w', path := Step(PlanFor(dir), net, w, it), DestPath(dir, it.id);
      var fetched := it.uri != "" && path !in w.files;
      var res := net(Request(Upgrade(it.uri), path));
      && w'.stats.Processed() == w.stats.Processed() + 1
      && w.stats.AtMost(w'.stats)
      && (w'.stats.noURI == w.stats.noURI + 1 <==> it.uri == "")
      && (w'.stats.existed == w.stats.existed + 1 <==> it.uri != "" && path in w.files)
      && (w'.stats.downloaded == w.stats.downloaded + 1 <==> fetched)
      && w'.requests == (if fetched then w.requests + [Request(Upgrade(it.uri), path)] else w.requests)
      && w'.stats.err == w.stats.err + (if fetched && res.Failed? then 1 else 0)
      && w'.files == (if fetched && res.LeavesFile() then w.files + {path} else w.files)
  {
  }

  /** The destination paths of two paintings differ when their ids do. */
  lemma DestPathInjective(dir: string, a: int, b: int)
    requires DestPath(dir, a) == DestPath(dir, b)
    ensures a == b
  {
    var pa, pb := DestPath(dir, a), DestPath(dir, b);
    var n := |dir + "/"|;
    assert |FormatInt(a)| == |FormatInt(b)|;
    assert pa[n..|pa| - 4] == FormatInt(a);
    assert pb[n..|pb| - 4] == FormatInt(b);
    FormatIntInjective(a, b);
  }

  /**
   * The destination is a file directly in `dir` whose name is the id as `%d`
   * writes it followed by `.jpg`; the name reads back as the id.
   */
  lemma DestPathNamesId(dir: string, id: int)
    requires MinInt <= id <= MaxInt
    ensures var p := DestPath(dir, id);
      && |p| > |dir| + 5
      && p[..|dir| + 1] == dir + "/"
      && p[|p| - 4..] == ".jpg"
      && Atoi(p[|dir| + 1..|p| - 4]) == Some(id)
  {
    var p := DestPath(dir, id);
    FormatIntShape(id);
    AtoiOfFormat(id);
    assert p[|dir| + 1..|p| - 4] == FormatInt(id);
  }

  /** The program's plan keeps ids apart. */
  lemma PlanForSeparatesIds(dir: string)
    ensures SeparatesIds(PlanFor(dir))
  {
    forall a: Item, b: Item | PlanFor(dir)(a).path == PlanFor(dir)(b).path
      ensures a.id == b.id
    {
      DestPathInjective(dir, a.id, b.id);
    }
  }

  // ---------------------------------------------------------------------------
  // Counter invariants over a run

  lemma {:induction false} RunAppend(plan: Plan, net: Net, w: World, a: seq<Item>, b: seq<Item>)
    ensures Run(plan, net, w, a + b) == Run(plan, net, Run(plan, net, w, a), b)
    decreases |b|
  {
    if b == [] {
      assert a + b == a;
    } else {
      assert (a + b)[..|a + b| - 1] == a + b[..|b| - 1];
      RunAppend(plan, net, w, a, b[..|b| - 1]);
    }
  }

  /**
   * Every painting is counted exactly once, in `noURI`, `existed` or
   * `downloaded`; no counter goes down; `err` never passes `downloaded`;
   * `downloaded` counts the requests sent; files are never removed.
   */
  lemma {:induction false} RunCounters(plan: Plan, net: Net, w: World, items: seq<Item>)
    ensures var w' := Run(plan, net, w, items);
      && w'.stats.Processed() == w.stats.Processed() + |items|
      && w.stats.AtMost(w'.stats)
      && (w.stats.err <= w.stats.downloaded ==> w'.stats.err <= w'.stats.downloaded)
      && |w.requests| <= |w'.requests| && w'.requests[..|w.requests|] == w.requests
      && w'.stats.downloaded - w.stats.downloaded == |w'.requests| - |w.requests|
      && w.files <= w'.files
    decreases |items|
  {
    if items != [] {
      var v := Run(plan, net, w, items[..|items| - 1]);
      RunCounters(plan, net, w, items[..|items| - 1]);
      var v' := Step(plan, net, v, items[|items| - 1]);
      assert v'.requests[..|v.requests|] == v.requests;
      assert v'.requests[..|w.requests|] == v.requests[..|w.requests|];
    }
  }

  /** Counters that start at zero end with one count per painting and no more errors than downloads. */
  lemma RunFromZero(plan: Plan, net: Net, w: World, items: seq<Item>)
    requires w.stats == Zero
    ensures var s := Run(plan, net, w, items).stats;
      s.Processed() == |items| && s.err <= s.downloaded
  {
    RunCounters(plan, net, w, items);
  }

  /** `noURI` counts exactly the paintings without a URI, whatever is on disk. */
  lemma {:induction false} RunNoUri(plan: Plan, net: Net, w: World, items: seq<Item>)
    ensures Run(plan, net, w, items).stats.noURI == w.stats.noURI + CountNoUri(items)
    decreases |items|
  {
    if items != [] {
      RunNoUri(plan, net, w, items[..|items| - 1]);
    }
  }

  /** `err` counts exactly the requests of this run whose fetch failed. */
  lemma {:induction false} RunErrors(plan: Plan, net: Net, w: World, items: seq<Item>)
    ensures var w' := Run(plan, net, w, items);
      |w.requests| <= |w'.requests| &&
      w'.stats.err == w.stats.err + CountFailed(net, w'.requests[|w.requests|..])
    decreases |items|
  {
    if items != [] {
      var v := Run(plan, net, w, items[..|items| - 1]);
      RunErrors(plan, net, w, items[..|items| - 1]);
      var v' := Step(plan, net, v, items[|items| - 1]);
      if v'.requests != v.requests {
        var added := v'.requests[|w.requests|..];
        assert added[..|added| - 1] == v.requests[|w.requests|..];
      }
    }
  }

  /** Counters seen part-way through a run are never above the final ones. */
  lemma RunMonotone(plan: Plan, net: Net, w: World, items: seq<Item>, i: nat)
    requires i <= |items|
    ensures Run(plan, net, w, items[..i]).stats.AtMost(Run(plan, net, w, items).stats)
  {
    assert items == items[..i] + items[i..];
    RunAppend(plan, net, w, items[..i], items[i..]);
    RunCounters(plan, net, Run(plan, net, w, items[..i]), items[i..]);
  }

  // ---------------------------------------------------------------------------
  // Order independence

  /**
   * What one painting adds to the counters when whether its file exists is
   * decided by `files`, the files on disk before the run.
   */
  function Contribution(plan: Plan, net: Net, files: set<string>, it: Item): Stats {
    if it.uri == "" then Stats(0, 0, 1, 0)
    else if plan(it).path in files then Stats(1, 0, 0, 0)
    else Stats(0, if net(plan(it)).Failed? then 1 else 0, 0, 1)
  }

  /** The sum of `f` over `items`, from the first to the last. */
  function SumBy(f: Item -> Stats, items: seq<Item>): Stats {
    if items == [] then Zero else SumBy(f, items[..|items| - 1]).Plus(f(items[|items| - 1]))
  }

  /** The counters summed over a run, one painting at a time. */
  function Total(plan: Plan, net: Net, files: set<string>, items: seq<Item>): Stats {
    SumBy(it => Contribution(plan, net, files, it), items)
  }

  /** The files a run adds when whether a file exists is decided by `files`. */
  function NewFiles(plan: Plan, net: Net, files: set<string>, items: seq<Item>): set<string> {
    set it | it in items && it.uri != "" && plan(it).path !in files && net(plan(it)).LeavesFile()
      :: plan(it).path
  }

  lemma {:induction false} SumByAppend(f: Item -> Stats, a: seq<Item>, b: seq<Item>)
    ensures SumBy(f, a + b) == SumBy(f, a).Plus(SumBy(f, b))
    decreases |b|
  {
    if b == [] {
      assert a + b == a;
    } else {
      var ab := a + b;
      assert ab[..|ab| - 1] == a + b[..|b| - 1];
      assert ab[|ab| - 1] == b[|b| - 1];
      SumByAppend(f, a, b[..|b| - 1]);
    }
  }

  /** Taking out the element at `j` takes one copy of it out of the multiset. */
  lemma RemoveAt<T>(ys: seq<T>, j: nat)
    requires j < |ys|
    ensures multiset(ys[..j] + ys[j + 1..]) == multiset(ys) - multiset{ys[j]}
  {
    assert ys == ys[..j] + [ys[j]] + ys[j + 1..];
  }

  lemma PlusShuffle(a: Stats, b: Stats, c: Stats)
    ensures a.Plus(c).Plus(b) == a.Plus(b.Plus(c))
  {
  }

  lemma SumBySingle(f: Item -> Stats, x: Item)
    ensures SumBy(f, [x]) == f(x)
  {
    assert [x][..0] == [];
    var v := f(x);
    assert Zero.Plus(v) == Stats(v.existed, v.err, v.noURI, v.downloaded);
  }

  /** Counters are sums: reordering the paintings does not change them. */
  lemma {:induction false} SumByPermutation(f: Item -> Stats, xs: seq<Item>, ys: seq<Item>)
    requires multiset(xs) == multiset(ys)
    ensures SumBy(f, xs) == SumBy(f, ys)
    decreases |xs|
  {
    if xs == [] {
      assert |ys| == |multiset(ys)| == 0;
    } else {
      var x := xs[|xs| - 1];
      var init := xs[..|xs| - 1];
      assert xs == init + [x];
      assert x in multiset(ys);
      var j :| 0 <= j < |ys| && ys[j] == x;
      var front, back := ys[..j], ys[j + 1..];
      assert ys == front + ([x] + back);
      RemoveAt(ys, j);
      assert multiset(xs) == multiset(init) + multiset{x} by {
        assert xs == init + [x];
      }
      SumByPermutation(f, init, front + back);
      SumByAppend(f, front, [x] + back);
      SumByAppend(f, [x], back);
      SumByAppend(f, front, back);
      SumBySingle(f, x);
      var a, b, c := SumBy(f, front), f(x), SumBy(f, back);
      assert SumBy(f, xs) == a.Plus(c).Plus(b);
      assert SumBy(f, ys) == a.Plus(b.Plus(c));
      PlusShuffle(a, b, c);
    }
  }

  /** The file a painting's fetch would add, if any, given the files before the run. */
  function AddedFile(plan: Plan, net: Net, files: set<string>, it: Item): set<string> {
    if it.uri != "" && plan(it).path !in files && net(plan(it)).LeavesFile()
    then {plan(it).path} else {}
  }

  lemma NewFilesSnoc(plan: Plan, net: Net, files: set<string>, init: seq<Item>, it: Item)
    ensures NewFiles(plan, net, files, init + [it]) ==
      NewFiles(plan, net, files, init) + AddedFile(plan, net, files, it)
  {
    assert forall x :: x in init + [it] <==> x in init || x == it;
  }

  /** With distinct ids, the paintings before the last never write the last one's file. */
  lemma NotWrittenEarlier(plan: Plan, net: Net, files: set<string>, items: seq<Item>)
    requires SeparatesIds(plan)
    requires items != [] && DistinctIds(items)
    ensures plan(items[|items| - 1]).path !in NewFiles(plan, net, files, items[..|items| - 1])
  {
    var init, it := items[..|items| - 1], items[|items| - 1];
    forall other | other in init ensures other.id != it.id {
      var k :| 0 <= k < |init| && init[k] == other;
      assert items[k] == other;
    }
  }

  /** A painting whose file is on disk exactly when it was before the run adds its contribution. */
  lemma StepIsContribution(plan: Plan, net: Net, files: set<string>, v: World, it: Item)
    requires plan(it).path in v.files <==> plan(it).path in files
    ensures Step(plan, net, v, it).stats == v.stats.Plus(Contribution(plan, net, files, it))
    ensures Step(plan, net, v, it).files == v.files + AddedFile(plan, net, files, it)
  {
  }

  /**
   * With distinct ids no painting's file is written by another painting, so
   * each painting's fate depends only on the files there before the run.
   */
  lemma {:induction false} RunIsTotal(plan: Plan, net: Net, w: World, items: seq<Item>)
    requires SeparatesIds(plan) && DistinctIds(items)
    ensures Run(plan, net, w, items).stats == w.stats.Plus(Total(plan, net, w.files, items))
    ensures Run(plan, net, w, items).files == w.files + NewFiles(plan, net, w.files, items)
    decreases |items|
  {
    if items == [] {
      assert NewFiles(plan, net, w.files, items) == {};
    } else {
      var init, it := items[..|items| - 1], items[|items| - 1];
      assert DistinctIds(init);
      RunIsTotal(plan, net, w, init);
      NotWrittenEarlier(plan, net, w.files, items);
      var v := Run(plan, net, w, init);
      assert Run(plan, net, w, items) == Step(plan, net, v, it);
      StepIsContribution(plan, net, w.files, v, it);
      assert Total(plan, net, w.files, items) ==
        Total(plan, net, w.files, init).Plus(Contribution(plan, net, w.files, it));
      assert items == init + [it];
      NewFilesSnoc(plan, net, w.files, init, it);
    }
  }

  /** With distinct ids, no painting occurs twice. */
  lemma {:induction false} DistinctIdsOnce(xs: seq<Item>, x: Item)
    requires DistinctIds(xs)
    ensures multiset(xs)[x] <= 1
    decreases |xs|
  {
    if xs != [] {
      var init, last := xs[..|xs| - 1], xs[|xs| - 1];
      assert xs == init + [last];
      DistinctIdsOnce(init, x);
      forall k | 0 <= k < |init| ensures init[k] != last {
        assert init[k] == xs[k];
      }
    }
  }

  /** A painting at two positions occurs at least twice. */
  lemma Twice(ys: seq<Item>, a: nat, b: nat)
    requires a < b < |ys| && ys[a] == ys[b]
    ensures multiset(ys)[ys[a]] >= 2
  {
    assert ys == ys[..b] + [ys[b]] + ys[b + 1..];
    assert ys[..b][a] == ys[a];
  }

  /** With distinct ids, an id names at most one painting of the list. */
  lemma SameIdSameItem(xs: seq<Item>, x: Item, y: Item)
    requires DistinctIds(xs) && x in xs && y in xs
    ensures x.id == y.id ==> x == y
  {
    var i :| 0 <= i < |xs| && xs[i] == x;
    var j :| 0 <= j < |xs| && xs[j] == y;
  }

  /** Reordering paintings with distinct ids keeps their ids distinct. */
  lemma DistinctIdsPermutation(xs: seq<Item>, ys: seq<Item>)
    requires DistinctIds(xs) && multiset(xs) == multiset(ys)
    ensures DistinctIds(ys)
  {
    forall a, b | 0 <= a < b < |ys| ensures ys[a].id != ys[b].id {
      assert ys[a] in multiset(ys) && ys[b] in multiset(ys);
      if ys[a] == ys[b] {
        Twice(ys, a, b);
        DistinctIdsOnce(xs, ys[a]);
      } else {
        SameIdSameItem(xs, ys[a], ys[b]);
      }
    }
  }

  /**
   * With distinct ids, the final counters and the final files do not depend
   * on the order in which the workers take the paintings.
   */
  lemma OrderIndependent(dir: string, net: Net, w: World, xs: seq<Item>, ys: seq<Item>)
    requires DistinctIds(xs)
    requires multiset(xs) == multiset(ys)
    ensures Run(PlanFor(dir), net, w, xs).stats == Run(PlanFor(dir), net, w, ys).stats
    ensures Run(PlanFor(dir), net, w, xs).files == Run(PlanFor(dir), net, w, ys).files
  {
    var plan := PlanFor(dir);
    DistinctIdsPermutation(xs, ys);
    PlanForSeparatesIds(dir);
    RunIsTotal(plan, net, w, xs);
    RunIsTotal(plan, net, w, ys);
    SumByPermutation(it => Contribution(plan, net, w.files, it), xs, ys);
    forall it ensures it in xs <==> it in ys {
      assert it in xs <==> it in multiset(xs);
      assert it in ys <==> it in multiset(ys);
    }
    assert NewFiles(plan, net, w.files, xs) == NewFiles(plan, net, w.files, ys);
  }

  // ---------------------------------------------------------------------------
  // Running again

  /**
   * After a run, a painting with a URI has its file when the file was there
   * before the run or its fetch would leave one.
   */
  lemma {:induction false} RunLeavesFiles(plan: Plan, net: Net, w: World, items: seq<Item>)
    ensures forall it | it in items && it.uri != "" &&
        (plan(it).path in w.files || net(plan(it)).LeavesFile()) ::
      plan(it).path in Run(plan, net, w, items).files
    decreases |items|
  {
    if items != [] {
      var init := items[..|items| - 1];
      RunLeavesFiles(plan, net, w, init);
      RunCounters(plan, net, w, init);
      var v := Run(plan, net, w, init);
      assert v.files <= Run(plan, net, w, items).files;
      assert forall it | it in items :: it in init || it == items[|items| - 1];
    }
  }

  /** When every painting with a URI already has its file, nothing is fetched and nothing changes on disk. */
  lemma {:induction false} RunAllPresent(plan: Plan, net: Net, w: World, items: seq<Item>)
    requires forall it | it in items && it.uri != "" :: plan(it).path in w.files
    ensures Run(plan, net, w, items) ==
      w.(stats := w.stats.Plus(Stats(|items| - CountNoUri(items), 0, CountNoUri(items), 0)))
    decreases |items|
  {
    if items != [] {
      var init, last := items[..|items| - 1], items[|items| - 1];
      assert forall it | it in init :: it in items;
      RunAllPresent(plan, net, w, init);
      var v := Run(plan, net, w, init);
      assert last in items;
      var n, m := CountNoUri(init), CountNoUri(items);
      assert m == n + (if last.uri == "" then 1 else 0);
      assert Step(plan, net, v, last) ==
        v.(stats := v.stats.Plus(if last.uri == "" then Stats(0, 0, 1, 0) else Stats(1, 0, 0, 0)));
    }
  }

  /**
   * Running the downloader a second time over the same paintings, after a
   * first run in which every fetch left its file, sends every painting with
   * a URI to `existed` and fetches nothing. Paintings whose file was there
   * before the first run are not fetched by it, so their fetch may fail.
   */
  lemma Rerun(plan: Plan, net: Net, net2: Net, w: World, items: seq<Item>)
    requires forall it | it in items && it.uri != "" ::
      plan(it).path in w.files || net(plan(it)).LeavesFile()
    ensures var first := Run(plan, net, w, items);
      var second := Run(plan, net2, first.(stats := Zero), items);
      && second.stats == Stats(|items| - CountNoUri(items), 0, CountNoUri(items), 0)
      && second.requests == first.requests
      && second.files == first.files
  {
    RunLeavesFiles(plan, net, w, items);
    var first := Run(plan, net, w, items);
    RunAllPresent(plan, net2, first.(stats := Zero), items);
  }

  /**
   * A fetch that fails after creating its file is counted as an error, yet
   * the next run counts the same painting as already downloaded.
   */
  lemma PartialFileCountsAsExisting(plan: Plan, net: Net, net2: Net, w: World, it: Item)
    requires it.uri != "" && plan(it).path !in w.files
    requires net(plan(it)) == Failed(true)
    ensures var first := Step(plan, net, w, it);
      var second := Step(plan, net2, first.(stats := Zero), it);
      && first.stats.err == w.stats.err + 1
      && second.stats == Stats(1, 0, 0, 0)
      && second.requests == first.requests
  {
  }

  // ---------------------------------------------------------------------------
  // The scenario of three paintings

  /** The three ids of the scenario below name three different files. */
  lemma ThreeDistinctPaths(dir: string)
    ensures DestPath(dir, 1) != DestPath(dir, 2)
    ensures DestPath(dir, 1) != DestPath(dir, 3)
    ensures DestPath(dir, 2) != DestPath(dir, 3)
  {
    if DestPath(dir, 1) == DestPath(dir, 2) { DestPathInjective(dir, 1, 2); }
    if DestPath(dir, 1) == DestPath(dir, 3) { DestPathInjective(dir, 1, 3); }
    if DestPath(dir, 2) == DestPath(dir, 3) { DestPathInjective(dir, 2, 3); }
  }

  /** Three paintings, the first without a URI. */
  function Scenario(): seq<Item> {
    [Item(1, ""), Item(2, "http://x/200,200/a.jpg"), Item(3, "http://x/200,200/b.jpg")]
  }

  /** Three paintings through the workers are three steps, in order. */
  lemma RunThree(plan: Plan, net: Net, w: World, a: Item, b: Item, c: Item)
    ensures Run(plan, net, w, [a, b, c]) ==
      Step(plan, net, Step(plan, net, Step(plan, net, w, a), b), c)
  {
    assert [a][..0] == [];
    assert Run(plan, net, w, [a]) == Step(plan, net, w, a);
    assert [a, b][..1] == [a];
    assert Run(plan, net, w, [a, b]) == Step(plan, net, Step(plan, net, w, a), b);
    assert [a, b, c][..2] == [a, b];
  }

  /**
   * Paintings 1 (no URI), 2 and 3 on an empty disk with fetches that succeed:
   * one `noURI`, two downloads, files for 2 and 3 and none for 1.
   */
  lemma ScenarioEmptyDisk(dir: string, net: Net, requests: seq<Request>)
    requires forall r :: net(r) == Saved
    ensures var w := Run(PlanFor(dir), net, World({}, Zero, requests), Scenario());
      && w.stats == Stats(0, 0, 1, 2)
      && w.files == {DestPath(dir, 2), DestPath(dir, 3)}
      && DestPath(dir, 1) !in w.files
  {
    var plan, items, w0 := PlanFor(dir), Scenario(), World({}, Zero, requests);
    ThreeDistinctPaths(dir);
    RunThree(plan, net, w0, items[0], items[1], items[2]);
    var w1 := Step(plan, net, w0, items[0]);
    assert w1 == w0.(stats := Stats(0, 0, 1, 0));
    assert plan(items[1]).path == DestPath(dir, 2) && plan(items[2]).path == DestPath(dir, 3);
    var w2 := Step(plan, net, w1, items[1]);
    assert w2.files == {DestPath(dir, 2)} && w2.stats == Stats(0, 0, 1, 1);
  }

  /** The same paintings with `3.jpg` already on disk: one `existed`, and only painting 2 is fetched. */
  lemma ScenarioOneOnDisk(dir: string, net: Net, requests: seq<Request>)
    requires forall r :: net(r) == Saved
    ensures var w := Run(PlanFor(dir), net, World({DestPath(dir, 3)}, Zero, requests), Scenario());
      && w.stats == Stats(1, 0, 1, 1)
      && w.requests == requests + [RequestFor(dir, Scenario()[1])]
  {
    var plan, items, w0 := PlanFor(dir), Scenario(), World({DestPath(dir, 3)}, Zero, requests);
    ThreeDistinctPaths(dir);
    RunThree(plan, net, w0, items[0], items[1], items[2]);
    var w1 := Step(plan, net, w0, items[0]);
    assert w1 == w0.(stats := Stats(0, 0, 1, 0));
    assert plan(items[1]).path == DestPath(dir, 2) && plan(items[2]).path == DestPath(dir, 3);
    var w2 := Step(plan, net, w1, items[1]);
    assert w2.stats == Stats(0, 0, 1, 1) && DestPath(dir, 3) in w2.files;
  }

  // ---------------------------------------------------------------------------
  // The imperative worker

  /** The `dlStats` value the workers increment. */
  class DlStats {
    var existed: nat
    var err: nat
    var noURI: nat
    var downloaded: nat

    constructor ()
      ensures Value() == Zero
    {
      existed, err, noURI, downloaded := 0, 0, 0, 0;
    }

    function Value(): Stats
      reads this
    {
      Stats(existed, err, noURI, downloaded)
    }

    method AddExisted()
      modifies this
      ensures Value() == old(Value()).Plus(Stats(1, 0, 0, 0))
    {
      existed := existed + 1;
    }

    method AddErr()
      modifies this
      ensures Value() == old(Value()).Plus(Stats(0, 1, 0, 0))
    {
      err := err + 1;
    }

    method AddNoUri()
      modifies this
      ensures Value() == old(Value()).Plus(Stats(0, 0, 1, 0))
    {
      noURI := noURI + 1;
    }

    method AddDownloaded()
      modifies this
      ensures Value() == old(Value()).Plus(Stats(0, 0, 0, 1))
    {
      downloaded := downloaded + 1;
    }
  }

  /** The image directory and the network as the workers see them. */
  class Disk {
    var files: set<string>
    ghost var requests: seq<Request>
    const net: Net

    constructor (files: set<string>, net: Net)
      ensures this.files == files && this.net == net && requests == []
    {
      this.files := files;
      this.net := net;
      requests := [];
    }

    /** `goutilio.FileExists`. */
    function FileExists(path: string): bool
      reads this
    {
      path in files
    }

    /** `downloadFile`: one request; true when it ended without error. */
    method DownloadFile(url: string, path: string) returns (ok: bool)
      modifies this
      ensures requests == old(requests) + [Request(url, path)]
      ensures ok <==> net(Request(url, path)).Saved?
      ensures files == if net(Request(url, path)).LeavesFile() then old(files) + {path} else old(files)
    {
      var res := net(Request(url, path));
      requests := requests + [Request(url, path)];
      if res.LeavesFile() {
        files := files + {path};
      }
      ok := res.Saved?;
    }
  }

  /** What the workers read from the paintings, in the order the dispatcher sends them. */
  function Items(ps: seq<Painting>): (r: seq<Item>)
    reads ps
    ensures |r| == |ps|
    ensures forall i :: 0 <= i < |ps| ==> r[i] == Item(ps[i].id, ps[i].mainURI)
  {
    if ps == [] then [] else Items(ps[..|ps| - 1]) + [Item(ps[|ps| - 1].id, ps[|ps| - 1].mainURI)]
  }

  /**
   * The worker body for one painting, given the id and URI it reads from
   * it: no URI, file already there, or one download of the upgraded URI;
   * the counters move accordingly.
   */
  method Work(imagesDir: string, it: Item, s: DlStats, disk: Disk)
    modifies s, disk
    ensures World(disk.files, s.Value(), disk.requests) ==
      Step(PlanFor(imagesDir), disk.net, old(World(disk.files, s.Value(), disk.requests)), it)
  {
    if it.uri == "" {
      s.AddNoUri();
      return;
    }
    var f := DestPath(imagesDir, it.id);
    if disk.FileExists(f) {
      s.AddExisted();
      return;
    }
    var uri := Upgrade(it.uri);
    var ok := disk.DownloadFile(uri, f);
    if !ok {
      s.AddErr();
    }
    s.AddDownloaded();
  }

  /** The workers taking the paintings one after another. */
  method RunWorkers(imagesDir: string, items: seq<Item>, s: DlStats, disk: Disk)
    modifies s, disk
    ensures World(disk.files, s.Value(), disk.requests) ==
      Run(PlanFor(imagesDir), disk.net, old(World(disk.files, s.Value(), disk.requests)), items)
  {
    ghost var plan := PlanFor(imagesDir);
    ghost var start := World(disk.files, s.Value(), disk.requests);
    var i := 0;
    while i < |items|
      invariant 0 <= i <= |items|
      invariant World(disk.files, s.Value(), disk.requests) == Run(plan, disk.net, start, items[..i])
    {
      assert items[..i + 1][..i] == items[..i];
      Work(imagesDir, items[i], s, disk);
      i := i + 1;
    }
    assert items[..i] == items;
  }

  /**
   * The dispatcher and a pool of `threads` workers: each painting is taken
   * once and put through the worker body; the counters start at zero. With
   * no worker started, nothing takes the paintings: `wg.Wait` returns at
   * once and the counters stay at zero.
   */
  method DownloadAll(imagesDir: string, threads: int, paintings: seq<Painting>, disk: Disk) returns (stats: Stats)
    modifies disk
    ensures threads > 0 ==>
      var w := Run(PlanFor(imagesDir), disk.net, World(old(disk.files), Zero, old(disk.requests)), Items(paintings));
      stats == w.stats && disk.files == w.files && disk.requests == w.requests
    ensures threads > 0 ==> stats.Processed() == |paintings| && stats.err <= stats.downloaded
    ensures threads <= 0 ==>
      stats == Zero && disk.files == old(disk.files) && disk.requests == old(disk.requests)
  {
    var s := new DlStats();
    if threads > 0 {
      var items := Items(paintings);
      RunFromZero(PlanFor(imagesDir), disk.net, World(disk.files, Zero, disk.requests), items);
      RunWorkers(imagesDir, items, s, disk);
    }
    stats := s.Value();
  }

  /**
   * The whole program after flag parsing: select the paintings, join the
   * URIs, then download. A panic while reading either table ends the run
   * before any download.
   */
  method RealMain(objects: seq<Row>, published: seq<Row>, imagesDir: string, threads: int, disk: Disk)
    returns (r: Result<Stats, Error>, ghost ps: seq<Painting>)
    modifies disk
    ensures r.Failure? <==> Selection(objects).Failure? || JoinError(published).Some?
    ensures r.Failure? && Selection(objects).Failure? ==> r.error == Selection(objects).error
    ensures r.Failure? && Selection(objects).Success? ==> JoinError(published) == Some(r.error)
    ensures r.Failure? ==> disk.files == old(disk.files) && disk.requests == old(disk.requests)
    ensures r.Success? ==> |ps| == |Selection(objects).value| && |published| > 0
    ensures r.Success? ==> forall i, j :: 0 <= i < j < |ps| ==> ps[i] != ps[j]
    ensures r.Success? ==> forall i :: 0 <= i < |ps| ==>
      Describes(ps[i], Selection(objects).value[i]) &&
      ps[i].mainURI == JoinedUri(ps, published[1..], ps[i], "")
    ensures r.Success? && threads > 0 ==>
      var w := Run(PlanFor(imagesDir), disk.net, World(old(disk.files), Zero, old(disk.requests)), Items(ps));
      r.value == w.stats && disk.files == w.files && disk.requests == w.requests
    ensures r.Success? && threads > 0 ==> r.value.Processed() == |Selection(objects).value|
    ensures r.Success? ==> r.value.err <= r.value.downloaded
    ensures r.Success? ==> r.value.noURI + r.value.existed <= |Selection(objects).value|
    ensures r.Success? && threads <= 0 ==>
      r.value == Zero && disk.files == old(disk.files) && disk.requests == old(disk.requests)
  {
    ps := [];
    var found := FindPaintings(objects);
    if found.Failure? {
      return Failure(found.error), ps;
    }
    var paintings := found.value;
    var err := AddUris(paintings, published);
    if err.Some? {
      return Failure(err.value), ps;
    }
    ps := paintings;
    var stats := DownloadAll(imagesDir, threads, paintings, disk);
    return Success(stats), ps;
  }

  lemma ItemsOfThree(a: Painting, b: Painting, c: Painting)
    ensures Items([a, b, c]) == [Item(a.id, a.mainURI), Item(b.id, b.mainURI), Item(c.id, c.mainURI)]
  {
  }

  /**
   * The scenario above through the imperative code: three paintings, the
   * first without a URI, an empty image directory and a network that
   * always delivers.
   */
  method EmptyDiskExample(imagesDir: string) returns (stats: Stats)
    ensures stats == Stats(0, 0, 1, 2)
  {
    var disk := new Disk({}, r => Saved);
    var p1 := new Painting(1, "", "");
    var p2 := new Painting(2, "", "");
    var p3 := new Painting(3, "", "");
    var sc := Scenario();
    p2.mainURI := sc[1].uri;
    p3.mainURI := sc[2].uri;
    var ps := [p1, p2, p3];
    ItemsOfThree(p1, p2, p3);
    ScenarioEmptyDisk(imagesDir, disk.net, disk.requests);
    stats := DownloadAll(imagesDir, 1, ps, disk);
  }
}

/** Discovery of the included sources of the runtime (src/runtime_cache.rs). */
module IncludedSources {
  import opened Wrappers

  type Path = string

  datatype Error =
    | ReadFailed(path: Path)
    | ParseFailed(path: Path, message: string)
    | NoParent(path: Path)
    | InspectFailed(path: Path)
    | NotRegular(path: Path)

  /**
    * The file system and the path functions the search uses: the readable files with their text, the entries that can
    * be inspected with whether each is a regular file, the scanner for include literals, and path arithmetic.
    */
  datatype Disk = Disk(
    text: map<Path, string>,
    regular: map<Path, bool>,
    literals: string -> Result<seq<string>, string>,
    parent: Path -> Option<Path>,
    join: (Path, string) -> Path)

  // --- the include graph ---

  function Literals(d: Disk, source: Path): Result<seq<string>, Error> {
    if source !in d.text then Failure(ReadFailed(source))
    else match d.literals(d.text[source])
      case Failure(message) => Failure(ParseFailed(source, message))
      case Success(names) => if names != [] && d.parent(source).None? then Failure(NoParent(source)) else Success(names)
  }

  function Targets(d: Disk, source: Path): seq<Path>
    requires Literals(d, source).Success?
  {
    var names := Literals(d, source).value;
    seq(|names|, i requires 0 <= i < |names| => d.join(d.parent(source).value, names[i]))
  }

  predicate Edge(d: Disk, source: Path, target: Path) {
    Literals(d, source).Success? && target in Targets(d, source)
  }

  predicate IsRegular(d: Disk, p: Path) {
    p in d.regular && d.regular[p]
  }

  /** A walk along include edges from one of the roots. */
  predicate Walk(d: Disk, roots: seq<Path>, walk: seq<Path>) {
    && walk != []
    && walk[0] in roots
    && forall i :: 0 <= i < |walk| - 1 ==> Edge(d, walk[i], walk[i + 1])
  }

  ghost predicate Reachable(d: Disk, roots: seq<Path>, p: Path) {
    exists walk :: Walk(d, roots, walk) && walk[|walk| - 1] == p
  }

  /** Something about a source makes the search give up. */
  predicate Faulty(d: Disk, knownSources: seq<Path>, source: Path) {
    || Literals(d, source).Failure?
    || exists i :: 0 <= i < |Targets(d, source)| && BadTarget(d, knownSources, Targets(d, source)[i])
  }

  predicate BadTarget(d: Disk, knownSources: seq<Path>, target: Path) {
    target !in knownSources && !IsRegular(d, target)
  }

  ghost predicate IsIncludeTarget(d: Disk, roots: seq<Path>, p: Path) {
    exists source :: Reachable(d, roots, source) && Edge(d, source, p)
  }

  predicate NoDuplicates(ps: seq<Path>) {
    forall i, j :: 0 <= i < j < |ps| ==> ps[i] != ps[j]
  }

  lemma RootIsReachable(d: Disk, roots: seq<Path>, p: Path)
    requires p in roots
    ensures Reachable(d, roots, p)
  {
    assert Walk(d, roots, [p]);
  }

  lemma EdgeExtendsReach(d: Disk, roots: seq<Path>, source: Path, target: Path)
    requires Reachable(d, roots, source) && Edge(d, source, target)
    ensures Reachable(d, roots, target)
  {
    var walk :| Walk(d, roots, walk) && walk[|walk| - 1] == source;
    var longer := walk + [target];
    forall i | 0 <= i < |longer| - 1 ensures Edge(d, longer[i], longer[i + 1]) {
      assert i < |walk| - 1 ==> Edge(d, walk[i], walk[i + 1]);
    }
    assert Walk(d, roots, longer);
  }

  /** A set that holds the roots and is closed under the include edges holds every reachable file. */
  lemma {:induction false} ClosedSetHoldsReachable(d: Disk, roots: seq<Path>, closed: set<Path>, walk: seq<Path>)
    requires Walk(d, roots, walk)
    requires forall p :: p in roots ==> p in closed
    requires forall s, t :: s in closed && Edge(d, s, t) ==> t in closed
    ensures walk[|walk| - 1] in closed
  {
    if |walk| > 1 {
      var shorter := walk[..|walk| - 1];
      forall i | 0 <= i < |shorter| - 1 ensures Edge(d, shorter[i], shorter[i + 1]) {
        assert Edge(d, walk[i], walk[i + 1]);
      }
      ClosedSetHoldsReachable(d, roots, closed, shorter);
      assert Edge(d, walk[|walk| - 2], walk[|walk| - 1]);
    }
  }

  // --- the worklist ---

  datatype Search = Search(known: set<Path>, pending: seq<Path>, scanned: set<Path>, included: seq<Path>)

  // The source whose targets are being followed, and how many of them have been.
  datatype Cursor = Between | Following(source: Path, done: nat)

  /** Every file met is reachable; only the targets of the source being followed may still be missing. */
  ghost predicate Explored(d: Disk, roots: seq<Path>, s: Search, at: Cursor) {
    && (forall p :: p in s.scanned ==> Reachable(d, roots, p))
    && (forall p :: p in s.pending ==> Reachable(d, roots, p))
    && (forall p {:trigger Met(s, p)} :: p in roots ==> Met(s, p))
    && (forall p, i {:trigger Due(d, p, at, i)} :: p in s.scanned && Due(d, p, at, i) ==> Dealt(s, Targets(d, p)[i]))
    && (forall p :: p in s.scanned ==> Literals(d, p).Success?)
    && (at.Following? ==> at.source in s.scanned && at.done <= |Targets(d, at.source)|)
  }

  predicate Met(s: Search, p: Path) {
    p in s.scanned || p in s.pending
  }

  predicate Dealt(s: Search, target: Path) {
    Met(s, target) && target in s.known
  }

  // Target `i` of source `p` has been followed by now.
  predicate Due(d: Disk, p: Path, at: Cursor, i: int) {
    Literals(d, p).Success? && 0 <= i < |Targets(d, p)| && (at == Between || p != at.source || i < at.done)
  }

  /** The included files are the targets known beyond the sources that were given. */
  ghost predicate Recorded(d: Disk, given: seq<Path>, s: Search) {
    && (forall p :: p in s.known <==> p in given || p in s.included)
    && (forall p :: p in s.included ==> p !in given && IsRegular(d, p) && HasSource(d, s.scanned, p))
    && NoDuplicates(s.included)
  }

  ghost predicate HasSource(d: Disk, scanned: set<Path>, p: Path) {
    exists s :: s in scanned && Edge(d, s, p)
  }

  lemma PopScanned(d: Disk, roots: seq<Path>, given: seq<Path>, s: Search)
    requires Sound(d, roots, given, s, Between)
    requires s.pending != [] && s.pending[|s.pending| - 1] in s.scanned
    ensures var t := s.(pending := s.pending[..|s.pending| - 1]);
      Sound(d, roots, given, t, Between)
  {
    var t := s.(pending := s.pending[..|s.pending| - 1]);
    forall p | Met(s, p) ensures Met(t, p) {
      PendingOrLast(s.pending, p);
    }
  }

  lemma PendingOrLast(pending: seq<Path>, p: Path)
    requires pending != []
    ensures p in pending <==> p in pending[..|pending| - 1] || p == pending[|pending| - 1]
  {
    assert pending == pending[..|pending| - 1] + [pending[|pending| - 1]];
  }

  lemma PopFresh(d: Disk, roots: seq<Path>, given: seq<Path>, s: Search)
    requires Sound(d, roots, given, s, Between)
    requires s.pending != [] && s.pending[|s.pending| - 1] !in s.scanned
    requires Literals(d, s.pending[|s.pending| - 1]).Success?
    ensures var source := s.pending[|s.pending| - 1];
      var t := s.(pending := s.pending[..|s.pending| - 1], scanned := s.scanned + {source});
      Sound(d, roots, given, t, Following(source, 0))
  {
    var source := s.pending[|s.pending| - 1];
    var t := s.(pending := s.pending[..|s.pending| - 1], scanned := s.scanned + {source});
    forall p | Met(s, p) ensures Met(t, p) {
      PendingOrLast(s.pending, p);
    }
    forall p | p in s.included ensures HasSource(d, t.scanned, p) {
      assert HasSource(d, s.scanned, p);
    }
    forall p, i | p in t.scanned && Due(d, p, Following(source, 0), i)
      ensures Dealt(t, Targets(d, p)[i])
    {
      assert Due(d, p, Between, i);
    }
  }

  /** The search after the next target has been followed. */
  function Followed(s: Search, target: Path): Search {
    Search(s.known + {target},
           if target in s.scanned then s.pending else s.pending + [target],
           s.scanned,
           if target in s.known then s.included else s.included + [target])
  }

  lemma FollowExplores(d: Disk, roots: seq<Path>, s: Search, source: Path, j: nat)
    requires Explored(d, roots, s, Following(source, j)) && j < |Targets(d, source)|
    ensures Explored(d, roots, Followed(s, Targets(d, source)[j]), Following(source, j + 1))
  {
    var target := Targets(d, source)[j];
    var t := Followed(s, target);
    assert Edge(d, source, target);
    EdgeExtendsReach(d, roots, source, target);
    assert forall p :: Met(s, p) ==> Met(t, p);
    forall p, i | p in t.scanned && Due(d, p, Following(source, j + 1), i) ensures Dealt(t, Targets(d, p)[i]) {
      if p != source || i != j {
        assert Due(d, p, Following(source, j), i);
        assert Dealt(s, Targets(d, p)[i]);
      }
    }
  }

  lemma FollowRecords(d: Disk, given: seq<Path>, s: Search, source: Path, target: Path)
    requires Recorded(d, given, s) && source in s.scanned && Edge(d, source, target)
    requires target in s.known || IsRegular(d, target)
    ensures Recorded(d, given, Followed(s, target))
  {
    var t := Followed(s, target);
    assert HasSource(d, t.scanned, target);
    forall p ensures p in t.included <==> p in s.included || (target !in s.known && p == target) {
    }
  }

  lemma CloseSource(d: Disk, roots: seq<Path>, given: seq<Path>, s: Search, source: Path)
    requires Literals(d, source).Success?
    requires Sound(d, roots, given, s, Following(source, |Targets(d, source)|))
    ensures Sound(d, roots, given, s, Between)
  {
    forall p, i | p in s.scanned && Due(d, p, Between, i) ensures Dealt(s, Targets(d, p)[i]) {
      assert Due(d, p, Following(source, |Targets(d, source)|), i);
    }
  }

  lemma DoneIsClosed(d: Disk, roots: seq<Path>, s: Search)
    requires Explored(d, roots, s, Between) && s.pending == []
    ensures forall p :: Reachable(d, roots, p) <==> p in s.scanned
  {
    forall p, t | p in s.scanned && Edge(d, p, t) ensures t in s.scanned {
      var i :| 0 <= i < |Targets(d, p)| && Targets(d, p)[i] == t;
      assert Due(d, p, Between, i);
      assert Met(s, t);
    }
    forall p | Reachable(d, roots, p) ensures p in s.scanned {
      var walk :| Walk(d, roots, walk) && walk[|walk| - 1] == p;
      assert forall r :: r in roots ==> Met(s, r);
      ClosedSetHoldsReachable(d, roots, s.scanned, walk);
    }
  }

  lemma DoneIsSound(d: Disk, roots: seq<Path>, given: seq<Path>, s: Search)
    requires Sound(d, roots, given, s, Between) && s.pending == []
    ensures forall p :: Reachable(d, roots, p) ==> !Faulty(d, given, p)
    ensures forall p :: p in s.included <==> p !in given && IsIncludeTarget(d, roots, p)
  {
    DoneIsClosed(d, roots, s);
    forall p | Reachable(d, roots, p) ensures !Faulty(d, given, p) {
      forall i | 0 <= i < |Targets(d, p)| ensures !BadTarget(d, given, Targets(d, p)[i]) {
        assert Due(d, p, Between, i);
      }
    }
    forall p ensures p in s.included <==> p !in given && IsIncludeTarget(d, roots, p) {
      if p in s.included {
        assert HasSource(d, s.scanned, p);
      } else if IsIncludeTarget(d, roots, p) {
        var source :| Reachable(d, roots, source) && Edge(d, source, p);
        var i :| 0 <= i < |Targets(d, source)| && Targets(d, source)[i] == p;
        assert Due(d, source, Between, i);
      }
    }
  }

  ghost predicate Sound(d: Disk, roots: seq<Path>, given: seq<Path>, s: Search, at: Cursor) {
    Explored(d, roots, s, at) && Recorded(d, given, s)
  }

  /** The inner loop: every include target of one source is recorded and, unless scanned, made pending. */
  method FollowIncludes(d: Disk, ghost roots: seq<Path>, given: seq<Path>, source: Path, s: Search)
    returns (r: Result<Search, Error>)
    requires Literals(d, source).Success? && Sound(d, roots, given, s, Following(source, 0))
    ensures r.Success? ==> Sound(d, roots, given, r.value, Between) && r.value.scanned == s.scanned
    ensures r.Failure? ==> Faulty(d, given, source)
  {
    var t := s;
    var targets := Targets(d, source);
    var j := 0;
    while j < |targets|
      invariant 0 <= j <= |targets| && t.scanned == s.scanned
      invariant Sound(d, roots, given, t, Following(source, j))
    {
      ghost var before := t;
      var target := targets[j];
      if target !in t.known {
        if !IsRegular(d, target) {
          NotRegularIsFaulty(d, roots, given, t, source, j);
          return Failure(if target !in d.regular then InspectFailed(target) else NotRegular(target));
        }
        t := t.(known := t.known + {target}, included := t.included + [target]);
      }
      if target !in t.scanned {
        t := t.(pending := t.pending + [target]);
      }
      FollowTarget(d, roots, given, before, t, source, j);
      j := j + 1;
    }
    CloseSource(d, roots, given, t, source);
    r := Success(t);
  }

  lemma NotRegularIsFaulty(d: Disk, roots: seq<Path>, given: seq<Path>, s: Search, source: Path, j: nat)
    requires Sound(d, roots, given, s, Following(source, j))
    requires j < |Targets(d, source)| && Targets(d, source)[j] !in s.known && !IsRegular(d, Targets(d, source)[j])
    ensures Faulty(d, given, source)
  {
    assert BadTarget(d, given, Targets(d, source)[j]);
  }

  lemma FollowTarget(d: Disk, roots: seq<Path>, given: seq<Path>, s: Search, t: Search, source: Path, j: nat)
    requires Sound(d, roots, given, s, Following(source, j)) && j < |Targets(d, source)|
    requires Targets(d, source)[j] in s.known || IsRegular(d, Targets(d, source)[j])
    requires var target := Targets(d, source)[j];
      && t.scanned == s.scanned
      && t.pending == (if target in s.scanned then s.pending else s.pending + [target])
      && t.known == (if target in s.known then s.known else s.known + {target})
      && t.included == (if target in s.known then s.included else s.included + [target])
    ensures Sound(d, roots, given, t, Following(source, j + 1))
  {
    assert t == Followed(s, Targets(d, source)[j]);
    assert Edge(d, source, Targets(d, source)[j]);
    FollowExplores(d, roots, s, source, j);
    FollowRecords(d, given, s, source, Targets(d, source)[j]);
  }

  /**
    * `included_sources`: without duplicates, exactly the include targets of the files reachable from the roots, less
    * the sources that were given. It fails exactly when some reachable file is faulty.
    */
  method FindIncludedSources(d: Disk, runtime: Path, given: seq<Path>) returns (r: Result<seq<Path>, Error>)
    ensures r.Success? <==> forall p :: Reachable(d, given + [runtime], p) ==> !Faulty(d, given, p)
    ensures r.Success? ==> NoDuplicates(r.value)
    ensures r.Success? ==> forall p :: p in r.value <==> p !in given && IsIncludeTarget(d, given + [runtime], p)
  {
    var roots := given + [runtime];
    var s := Search((set p | p in given), roots, {}, []);
    StartsSound(d, roots, given, s);
    while s.pending != []
      invariant Sound(d, roots, given, s, Between)
      invariant s.scanned <= d.text.Keys
      decreases d.text.Keys - s.scanned, |s.pending|
    {
      ghost var before := s;
      var source := s.pending[|s.pending| - 1];
      s := s.(pending := s.pending[..|s.pending| - 1]);
      if source in s.scanned {
        PopScanned(d, roots, given, before);
        continue;
      }
      var names := Literals(d, source);
      if names.Failure? {
        PendingIsReachable(d, roots, given, before, source);
        return Failure(names.error);
      }
      s := s.(scanned := s.scanned + {source});
      PopFresh(d, roots, given, before);
      PendingIsReachable(d, roots, given, before, source);
      var next := FollowIncludes(d, roots, given, source, s);
      if next.Failure? {
        return Failure(next.error);
      }
      s := next.value;
    }
    DoneIsSound(d, roots, given, s);
    r := Success(s.included);
  }

  lemma PendingIsReachable(d: Disk, roots: seq<Path>, given: seq<Path>, s: Search, source: Path)
    requires Sound(d, roots, given, s, Between) && source in s.pending
    ensures Reachable(d, roots, source)
  {
  }

  lemma StartsSound(d: Disk, roots: seq<Path>, given: seq<Path>, s: Search)
    requires s.pending == roots && s.scanned == {} && s.included == [] && forall p :: p in s.known <==> p in given
    ensures Sound(d, roots, given, s, Between)
  {
    forall p | p in roots ensures Reachable(d, roots, p) {
      RootIsReachable(d, roots, p);
    }
  }
}

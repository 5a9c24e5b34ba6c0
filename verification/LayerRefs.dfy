/** Reference counts of the overlay's layer sets (internal/sandbox/ocifs/layers.go and the
    handles of file.go).

    A layer set is referenced by the open handles on it, by calls that use it, and by the layer
    sets opened under it; when its count reaches zero its files are closed and its parent is
    released.  Any number of goroutines interleave between the changes of the counters. */
module LayerRefs {
  import opened Basics
  type Lid = nat
  type Hid = nat
  type Tid = nat

  /** A set of open layer files: its count, and how often its files were closed. */
  datatype Layer = Layer(parent: Option<Lid>, refc: int, closes: nat)

  /** `layers` holds every layer set ever made, and the maps say who refers to which. */
  datatype State = State(
    layers: seq<Layer>,
    handles: map<Hid, Lid>,     // open handles
    holding: map<Tid, Lid>,     // reference of a call, or one that is about to be dropped
    news: map<Tid, Lid>,        // handle that a call is opening
    linked: map<Lid, Lid>,      // reference of a layer set to its parent
    closing: map<Tid, Lid>,     // a count reached zero and the files are about to be closed
    calling: set<Tid>)          // calls that still use what they hold

  // ----- steps

  /** openSelf, openParent or openRoot. */
  datatype Which = Self | Parent | Root

  datatype Action =
    | Mount(h: Hid)
    | Enter(t: Tid, h: Hid)
    | OpenDir(t: Tid, h: Hid, which: Which)
    | OpenFile(t: Tid)
    | Adopt(t: Tid, h: Hid)
    | Finish(t: Tid)
    | Release(t: Tid)
    | CloseFiles(t: Tid)
    | Close(t: Tid, h: Hid)

  predicate Idle(s: State, t: Tid) { t !in s.holding && t !in s.closing }

  /** A call that has a layer set to work on. */
  predicate Calling(s: State, t: Tid) { t in s.calling && t !in s.news && t in s.holding && s.holding[t] < |s.layers| }

  predicate Enabled(s: State, a: Action) {
    match a
    case Mount(h) => h !in s.handles
    case Enter(t, h) => Idle(s, t) && h in s.handles && s.handles[h] < |s.layers|
    case OpenDir(t, h, _) => Calling(s, t) && h !in s.handles
    case OpenFile(t) => Calling(s, t)
    case Adopt(t, h) => t in s.news && t in s.holding && s.holding[t] < |s.layers| && h !in s.handles
    case Finish(t) => Calling(s, t)
    case Release(t) => t in s.holding && t !in s.calling && s.holding[t] < |s.layers|
    case CloseFiles(t) => t in s.closing && s.closing[t] < |s.layers|
    case Close(t, h) => Idle(s, t) && h in s.handles
  }

  function Ref(layers: seq<Layer>, l: Lid): seq<Layer>
    requires l < |layers|
  {
    layers[l := layers[l].(refc := layers[l].refc + 1)]
  }

  function Unref(layers: seq<Layer>, l: Lid): seq<Layer>
    requires l < |layers|
  {
    layers[l := layers[l].(refc := layers[l].refc - 1)]
  }

  /** The layer set whose parents end the chain. */
  function RootOf(layers: seq<Layer>, l: Lid): (r: Lid)
    requires l < |layers|
    ensures r <= l
  {
    match layers[l].parent
    case Some(p) => if p < l then RootOf(layers, p) else l
    case None => l
  }

  function ParentOf(layers: seq<Layer>, l: Lid): Lid
    requires l < |layers|
  {
    match layers[l].parent case Some(p) => if p < l then p else l case None => l
  }

  function Target(layers: seq<Layer>, l: Lid, which: Which): (r: Lid)
    requires l < |layers|
    ensures r <= l
  {
    match which case Self => l case Parent => ParentOf(layers, l) case Root => RootOf(layers, l)
  }

  /** A new handle on a layer set, at the end of which the call only drops its reference. */
  function Opened(s: State, t: Tid, h: Hid, l: Lid): State
    requires l < |s.layers|
  {
    s.(layers := Ref(s.layers, l), handles := s.handles[h := l], calling := s.calling - {t})
  }

  function Next(s: State, a: Action): State
    requires Enabled(s, a)
  {
    match a
    case Mount(h) => s.(layers := s.layers + [Layer(None, 1, 0)], handles := s.handles[h := |s.layers|])
    case Enter(t, h) =>
      s.(layers := Ref(s.layers, s.handles[h]), holding := s.holding[t := s.handles[h]], calling := s.calling + {t})
    case OpenDir(t, h, which) => Opened(s, t, h, Target(s.layers, s.holding[t], which))
    case OpenFile(t) =>
      s.(layers := s.layers + [Layer(Some(s.holding[t]), 1, 0)], news := s.news[t := |s.layers|])
    case Adopt(t, h) =>
      s.(layers := Ref(s.layers, s.holding[t]), linked := s.linked[s.news[t] := s.holding[t]],
         handles := s.handles[h := s.news[t]], news := s.news - {t}, calling := s.calling - {t})
    case Finish(t) => s.(calling := s.calling - {t})
    case Release(t) =>
      var l := s.holding[t];
      s.(layers := Unref(s.layers, l), holding := s.holding - {t},
         closing := if s.layers[l].refc == 1 then s.closing[t := l] else s.closing)
    case CloseFiles(t) =>
      var l := s.closing[t];
      s.(layers := s.layers[l := s.layers[l].(closes := s.layers[l].closes + 1)], closing := s.closing - {t},
         linked := s.linked - {l},
         holding := match s.layers[l].parent case Some(p) => s.holding[t := p] case None => s.holding)
    case Close(t, h) => s.(handles := s.handles - {h}, holding := s.holding[t := s.handles[h]])
  }

  ghost predicate Init(s: State) { s == State([], map[], map[], map[], map[], map[], {}) }

  ghost predicate Step(s: State, s': State) { exists a :: Enabled(s, a) && s' == Next(s, a) }

  ghost predicate Run(run: seq<State>) {
    && run != [] && Init(run[0])
    && forall i :: 0 <= i < |run| - 1 ==> Step(run[i], run[i + 1])
  }

  // ----- counting

  /** Who refers to `v`. */
  function On(m: map<nat, nat>, v: nat): set<nat> { set k | k in m && m[k] == v }

  lemma {:induction false} OnAdd(m: map<nat, nat>, k: nat, w: nat, v: nat)
    requires k !in m
    ensures |On(m[k := w], v)| == |On(m, v)| + Bit(w == v)
  {
    assert On(m[k := w], v) == if w == v then On(m, v) + {k} else On(m, v);
  }

  lemma {:induction false} OnRemove(m: map<nat, nat>, k: nat, v: nat)
    requires k in m
    ensures |On(m - {k}, v)| == |On(m, v)| - Bit(m[k] == v)
  {
    assert k in On(m, v) <==> m[k] == v;
    assert On(m - {k}, v) == On(m, v) - {k};
  }

  /** Open handles, calls in flight, handles being opened and layer sets opened under it. */
  function Count(s: State, l: Lid): nat {
    |On(s.handles, l)| + |On(s.holding, l)| + |On(s.news, l)| + |On(s.linked, l)|
  }

  // ----- the invariant

  ghost predicate Inside(m: map<nat, nat>, n: nat) { forall k :: k in m ==> m[k] < n }

  /** What each goroutine may be doing. */
  ghost predicate Threads(s: State) {
    && (forall t :: t in s.holding ==> t !in s.closing)
    && (forall t :: t in s.calling ==> t in s.holding)
    && (forall t :: t in s.news ==> t in s.calling && s.news[t] !in s.linked)
    && (forall t, u :: t in s.news && u in s.news && s.news[t] == s.news[u] ==> t == u)
    && (forall t :: t in s.news && s.news[t] < |s.layers| && t in s.holding ==> s.layers[s.news[t]].parent == Some(s.holding[t]))
  }

  ghost predicate Bounds(s: State) {
    var n := |s.layers|;
    && Inside(s.handles, n) && Inside(s.holding, n) && Inside(s.news, n) && Inside(s.linked, n) && Inside(s.closing, n)
    && (forall c :: c in s.linked ==> c < n)
    && (forall l :: 0 <= l < n && s.layers[l].parent.Some? ==> s.layers[l].parent.value < l)
  }

  /** The count is the number of references, and at zero the files are closed once. */
  ghost predicate Counted(s: State, l: Lid)
    requires l < |s.layers|
  {
    && s.layers[l].refc == Count(s, l)
    && |On(s.closing, l)| + s.layers[l].closes == Bit(s.layers[l].refc == 0)
  }

  /** A layer set keeps its parent until its files are closed. */
  ghost predicate Linked(s: State, c: Lid)
    requires c < |s.layers|
  {
    match s.layers[c].parent
    case None => c !in s.linked
    case Some(p) =>
      if c in s.linked then s.linked[c] == p && s.layers[c].closes == 0
      else s.layers[c].closes > 0 || exists t :: t in s.news && s.news[t] == c
  }

  ghost predicate Inv(s: State) {
    && Bounds(s) && Threads(s)
    && (forall l :: 0 <= l < |s.layers| ==> Counted(s, l))
    && (forall l :: 0 <= l < |s.layers| ==> Linked(s, l))
  }

  // ----- every step keeps it

  predicate Alive(s: State, l: Lid) { l < |s.layers| && s.layers[l].refc > 0 }

  /** A layer set that is alive keeps its parent alive. */
  lemma {:induction false} ParentAlive(s: State, l: Lid)
    requires Inv(s) && Alive(s, l) && s.layers[l].parent.Some?
    ensures Alive(s, s.layers[l].parent.value)
  {
    var p := s.layers[l].parent.value;
    assert Counted(s, l) && Linked(s, l) && Counted(s, p);
    if l in s.linked {
      OnMember(s.linked, l, p);
    } else {
      var t :| t in s.news && s.news[t] == l;
      OnMember(s.holding, t, p);
    }
  }

  lemma {:induction false} ChainAlive(s: State, l: Lid)
    requires Inv(s) && Alive(s, l)
    ensures Alive(s, ParentOf(s.layers, l)) && Alive(s, RootOf(s.layers, l))
    decreases l
  {
    if s.layers[l].parent.Some? {
      ParentAlive(s, l);
      ChainAlive(s, s.layers[l].parent.value);
    }
  }

  lemma {:induction false} HoldingAlive(s: State, t: Tid)
    requires Inv(s) && t in s.holding
    ensures Alive(s, s.holding[t])
  {
    assert Counted(s, s.holding[t]);
    OnMember(s.holding, t, s.holding[t]);
  }

  lemma {:induction false} OpenedCounted(s: State, t: Tid, h: Hid, target: Lid, l: Lid)
    requires l < |s.layers| && Counted(s, l) && h !in s.handles && Alive(s, target)
    ensures Counted(Opened(s, t, h, target), l)
  {
    OnAdd(s.handles, h, target, l);
  }

  lemma {:induction false} CountNew(s: State, l: Lid)
    requires Bounds(s) && l >= |s.layers|
    ensures Count(s, l) == 0 && On(s.closing, l) == {}
  {
    assert On(s.handles, l) == {} && On(s.holding, l) == {} && On(s.news, l) == {} && On(s.linked, l) == {};
  }

  lemma {:induction false} OnMember(m: map<nat, nat>, k: nat, v: nat)
    requires k in m && m[k] == v
    ensures |On(m, v)| > 0
  {
    assert k in On(m, v);
  }

  lemma {:induction false} ReleaseCounted(s: State, t: Tid, l: Lid)
    requires Inv(s) && Enabled(s, Release(t)) && l < |s.layers|
    ensures Counted(Next(s, Release(t)), l)
  {
    assert Counted(s, l) && Counted(s, s.holding[t]);
    OnRemove(s.holding, t, l);
    OnMember(s.holding, t, s.holding[t]);
    OnAdd(s.closing, t, s.holding[t], l);
  }

  lemma {:induction false} CloseFilesCounted(s: State, t: Tid, l: Lid)
    requires Inv(s) && Enabled(s, CloseFiles(t)) && l < |s.layers|
    ensures Counted(Next(s, CloseFiles(t)), l)
  {
    var c := s.closing[t];
    assert Counted(s, l) && Counted(s, c) && Linked(s, c);
    OnRemove(s.closing, t, l);
    OnMember(s.closing, t, c);
    match s.layers[c].parent
    case None => assert s.linked - {c} == s.linked;
    case Some(p) =>
      assert c in s.linked by { if u :| u in s.news && s.news[u] == c { OnMember(s.news, u, c); } }
      OnRemove(s.linked, c, l);
      OnAdd(s.holding, t, p, l);
  }

  lemma {:induction false} EnterCounted(s: State, t: Tid, h: Hid, l: Lid)
    requires Enabled(s, Enter(t, h)) && l < |s.layers| && Counted(s, l)
    ensures Counted(Next(s, Enter(t, h)), l)
  {
    OnAdd(s.holding, t, s.handles[h], l);
    OnMember(s.handles, h, s.handles[h]);
  }

  lemma {:induction false} AdoptCounted(s: State, t: Tid, h: Hid, l: Lid)
    requires Threads(s) && Enabled(s, Adopt(t, h)) && l < |s.layers| && Counted(s, l)
    ensures Counted(Next(s, Adopt(t, h)), l)
  {
    OnAdd(s.linked, s.news[t], s.holding[t], l);
    OnAdd(s.handles, h, s.news[t], l);
    OnRemove(s.news, t, l);
    OnMember(s.holding, t, s.holding[t]);
  }

  lemma {:induction false} StepCounted(s: State, a: Action, l: Lid)
    requires Inv(s) && Enabled(s, a) && l < |Next(s, a).layers|
    ensures Counted(Next(s, a), l)
  {
    if l < |s.layers| { assert Counted(s, l); } else { CountNew(s, l); }
    match a
    case Mount(h) => OnAdd(s.handles, h, |s.layers|, l);
    case Enter(t, h) => EnterCounted(s, t, h, l);
    case OpenDir(t, h, which) =>
      HoldingAlive(s, t);
      ChainAlive(s, s.holding[t]);
      OpenedCounted(s, t, h, Target(s.layers, s.holding[t], which), l);
    case OpenFile(t) => OnAdd(s.news, t, |s.layers|, l);
    case Adopt(t, h) => AdoptCounted(s, t, h, l);
    case Finish(t) =>
    case Release(t) => ReleaseCounted(s, t, l);
    case CloseFiles(t) => CloseFilesCounted(s, t, l);
    case Close(t, h) =>
      OnRemove(s.handles, h, l);
      OnAdd(s.holding, t, s.handles[h], l);
  }

  lemma {:induction false} StepBounds(s: State, a: Action)
    requires Bounds(s) && Enabled(s, a)
    ensures Bounds(Next(s, a))
  {
    if a.OpenDir? { OpenedBounds(s, a.t, a.h, Target(s.layers, s.holding[a.t], a.which)); }
  }

  lemma {:induction false} OpenedBounds(s: State, t: Tid, h: Hid, l: Lid)
    requires Bounds(s) && l < |s.layers|
    ensures Bounds(Opened(s, t, h, l))
  {
  }

  lemma {:induction false} StepThreads(s: State, a: Action)
    requires Bounds(s) && Threads(s) && Enabled(s, a)
    ensures Threads(Next(s, a))
  {
    match a
    case OpenDir(t, h, which) => OpenedThreads(s, t, h, Target(s.layers, s.holding[t], which));
    case OpenFile(t) => OpenFileThreads(s, t);
    case Adopt(t, h) => AdoptThreads(s, t, h);
    case CloseFiles(t) => CloseFilesThreads(s, t);
    case Mount(h) => MountThreads(s, h);
    case Release(t) => ReleaseThreads(s, t);
    case _ => QuietThreads(s, a);
  }

  lemma {:induction false} MountThreads(s: State, h: Hid)
    requires Bounds(s) && Threads(s) && Enabled(s, Mount(h))
    ensures Threads(Next(s, Mount(h)))
  {
  }

  lemma {:induction false} ReleaseThreads(s: State, t: Tid)
    requires Threads(s) && Enabled(s, Release(t))
    ensures Threads(Next(s, Release(t)))
  {
    MovedThreads(s, Next(s, Release(t)), t);
  }

  lemma {:induction false} QuietThreads(s: State, a: Action)
    requires Threads(s) && Enabled(s, a) && (a.Enter? || a.Finish? || a.Close?)
    ensures Threads(Next(s, a))
  {
    MovedThreads(s, Next(s, a), a.t);
  }

  /** One goroutine that opens nothing changes what it does. */
  lemma {:induction false} MovedThreads(s: State, s': State, t: Tid)
    requires Threads(s) && s'.news == s.news && s'.linked == s.linked && t !in s.news
    requires |s'.layers| == |s.layers| && forall l :: 0 <= l < |s.layers| ==> s'.layers[l].parent == s.layers[l].parent
    requires s'.holding - {t} == s.holding - {t} && s'.closing - {t} == s.closing - {t} && s'.calling - {t} == s.calling - {t}
    requires (t in s'.holding ==> t !in s'.closing) && (t in s'.calling ==> t in s'.holding)
    ensures Threads(s')
  {
    forall u | u != t
      ensures (u in s'.holding <==> u in s.holding) && (u in s.holding ==> s'.holding[u] == s.holding[u])
      ensures (u in s'.closing <==> u in s.closing) && (u in s'.calling <==> u in s.calling)
    {
      assert u in s'.holding - {t} <==> u in s.holding - {t};
      assert u in s'.closing - {t} <==> u in s.closing - {t};
      assert u in s'.calling - {t} <==> u in s.calling - {t};
      assert u in s.holding ==> (s'.holding - {t})[u] == (s.holding - {t})[u];
    }
  }

  lemma {:induction false} OpenedThreads(s: State, t: Tid, h: Hid, l: Lid)
    requires Threads(s) && l < |s.layers| && t !in s.news
    ensures Threads(Opened(s, t, h, l))
  {
  }

  lemma {:induction false} OpenFileThreads(s: State, t: Tid)
    requires Bounds(s) && Threads(s) && Enabled(s, OpenFile(t))
    ensures Threads(Next(s, OpenFile(t)))
  {
  }

  lemma {:induction false} AdoptThreads(s: State, t: Tid, h: Hid)
    requires Bounds(s) && Threads(s) && Enabled(s, Adopt(t, h))
    ensures Threads(Next(s, Adopt(t, h)))
  {
  }

  lemma {:induction false} CloseFilesThreads(s: State, t: Tid)
    requires Bounds(s) && Threads(s) && Enabled(s, CloseFiles(t))
    ensures Threads(Next(s, CloseFiles(t)))
  {
  }

  lemma {:induction false} StepLinked(s: State, a: Action, c: Lid)
    requires Inv(s) && Enabled(s, a) && c < |Next(s, a).layers|
    ensures Linked(Next(s, a), c)
  {
    if c < |s.layers| { assert Linked(s, c); }
    match a
    case OpenFile(t) => OpenFileLinked(s, t, c);
    case Adopt(t, h) =>
      assert Counted(s, s.news[t]);
      OnMember(s.news, t, s.news[t]);
      if c != s.news[t] { NewsKept(s, Next(s, a), t, c); }
    case CloseFiles(t) => if c != s.closing[t] { SameNews(s, Next(s, a), c); }
    case _ => QuietLinked(s, a, c);
  }

  lemma {:induction false} OpenFileLinked(s: State, t: Tid, c: Lid)
    requires Bounds(s) && Enabled(s, OpenFile(t)) && c <= |s.layers| && (c < |s.layers| ==> Linked(s, c))
    ensures Linked(Next(s, OpenFile(t)), c)
  {
    var s' := Next(s, OpenFile(t));
    assert s'.news[t] == |s.layers|;
    if c < |s.layers| { NewsKept(s, s', t, c); }
  }

  lemma {:induction false} QuietLinked(s: State, a: Action, c: Lid)
    requires Bounds(s) && Enabled(s, a) && !a.OpenFile? && !a.Adopt? && !a.CloseFiles?
    requires c < |Next(s, a).layers| && (c < |s.layers| ==> Linked(s, c))
    ensures Linked(Next(s, a), c)
  {
    if c < |s.layers| { SameNews(s, Next(s, a), c); }
  }

  lemma {:induction false} SameNews(s: State, s': State, c: Lid)
    requires c < |s.layers| <= |s'.layers| && Linked(s, c) && s'.layers[c].parent == s.layers[c].parent && s'.layers[c].closes == s.layers[c].closes
    requires (c in s.linked <==> c in s'.linked) && (c in s.linked ==> s'.linked[c] == s.linked[c]) && s'.news == s.news
    ensures Linked(s', c)
  {
  }

  lemma {:induction false} NewsKept(s: State, s': State, t: Tid, c: Lid)
    requires c < |s.layers| <= |s'.layers| && Linked(s, c) && s'.layers[c].parent == s.layers[c].parent && s'.layers[c].closes == s.layers[c].closes
    requires (c in s.linked <==> c in s'.linked) && (c in s.linked ==> s'.linked[c] == s.linked[c])
    requires forall u :: u in s.news && u != t ==> u in s'.news && s'.news[u] == s.news[u]
    requires t in s.news ==> s.news[t] != c
    ensures Linked(s', c)
  {
    if u :| u in s.news && s.news[u] == c { assert s'.news[u] == c; }
  }

  lemma {:induction false} StepKeepsInv(s: State, s': State)
    requires Inv(s) && Step(s, s')
    ensures Inv(s')
  {
    var a :| Enabled(s, a) && s' == Next(s, a);
    StepBounds(s, a);
    StepThreads(s, a);
    forall l | 0 <= l < |s'.layers| ensures Counted(s', l) { StepCounted(s, a, l); }
    forall l | 0 <= l < |s'.layers| ensures Linked(s', l) { StepLinked(s, a, l); }
  }

  lemma {:induction false} RunKeepsInv(run: seq<State>, i: nat)
    requires Run(run) && i < |run|
    ensures Inv(run[i])
  {
    if i > 0 {
      RunKeepsInv(run, i - 1);
      assert Step(run[i - 1], run[i - 1 + 1]);
      StepKeepsInv(run[i - 1], run[i]);
    }
  }

  /** openSelf opens the layer set itself, openParent the one it was opened under, and openRoot the
      one on its chain that was opened under none; at the root all are the same. */
  lemma {:induction false} TargetIs(s: State, l: Lid)
    requires Bounds(s) && l < |s.layers|
    ensures Target(s.layers, l, Self) == l
    ensures Target(s.layers, l, Parent) == match s.layers[l].parent case Some(p) => p case None => l
    ensures var r := Target(s.layers, l, Root); s.layers[r].parent.None? && OnChain(s.layers, l, r)
    decreases l
  {
    if s.layers[l].parent.Some? { TargetIs(s, s.layers[l].parent.value); }
  }

  // ----- what every run guarantees

  /** Every goroutine can go on: one that closes files, one that drops a reference, and a call, which
      may open a directory again, open a file, or end. */
  lemma {:induction false} GoesOn(run: seq<State>, i: nat, t: Tid, h: Hid, which: Which)
    requires Run(run) && i < |run|
    ensures var s := run[i];
      && (t in s.closing ==> Enabled(s, CloseFiles(t)))
      && (t in s.holding && t !in s.calling ==> Enabled(s, Release(t)))
      && (t in s.calling && t !in s.news ==> Enabled(s, OpenFile(t)) && Enabled(s, Finish(t)) && (h !in s.handles ==> Enabled(s, OpenDir(t, h, which))))
      && (t in s.news && h !in s.handles ==> Enabled(s, Adopt(t, h)))
      && (Idle(s, t) && h in s.handles ==> Enabled(s, Enter(t, h)) && Enabled(s, Close(t, h)))
      && (h !in s.handles ==> Enabled(s, Mount(h)))
  {
    RunKeepsInv(run, i);
  }

  lemma {:induction false} BoundOf(s: set<nat>) returns (b: nat)
    ensures forall x :: x in s ==> x < b
    decreases |s|
  {
    b := 0;
    if s != {} {
      var y :| y in s;
      b := BoundOf(s - {y});
      b := if y < b then b else y + 1;
      assert s == s - {y} + {y};
    }
  }

  /** How much a goroutine has still to do before it is idle. */
  function ToDo(s: State, t: Tid): nat {
    if t in s.closing then 4 * s.closing[t] + 1
    else if t in s.holding then 4 * s.holding[t] + (if t in s.calling then 3 else 2)
    else 0
  }

  /** One step of the goroutine that leaves it less to do. */
  lemma {:induction false} OneLess(s: State, t: Tid) returns (s': State)
    requires Inv(s) && !Idle(s, t)
    ensures Step(s, s') && ToDo(s', t) < ToDo(s, t)
  {
    var a;
    if t in s.closing {
      a := CloseFiles(t);
    } else if t !in s.calling {
      a := Release(t);
    } else if t in s.news {
      var h := BoundOf(s.handles.Keys);
      a := Adopt(t, h);
    } else {
      a := Finish(t);
    }
    assert Enabled(s, a);
    s' := Next(s, a);
  }

  /** States that follow one another. */
  ghost predicate Path(path: seq<State>) {
    path != [] && forall i :: 0 <= i < |path| - 1 ==> Step(path[i], path[i + 1])
  }

  /** Left to itself, a goroutine gets done: it drops what it holds, and closes what nobody refers to
      any more, up to the root if need be. */
  lemma {:induction false} GetsDone(s: State, t: Tid) returns (path: seq<State>)
    requires Inv(s)
    ensures Path(path) && path[0] == s && Idle(path[|path| - 1], t)
    decreases ToDo(s, t)
  {
    if Idle(s, t) {
      path := [s];
    } else {
      var s' := OneLess(s, t);
      StepKeepsInv(s, s');
      var rest := GetsDone(s', t);
      path := [s] + rest;
      forall i | 0 <= i < |path| - 1 ensures Step(path[i], path[i + 1]) {
        if i > 0 { assert path[i] == rest[i - 1] && path[i + 1] == rest[i - 1 + 1]; }
      }
    }
  }

  /** In every state the count of a layer set is the number of open handles on it, plus the
      calls and new handles in flight, plus the layer sets that still refer to it. */
  lemma {:induction false} CountsAreExact(run: seq<State>, i: nat, l: Lid)
    requires Run(run) && i < |run| && l < |run[i].layers|
    ensures run[i].layers[l].refc == Count(run[i], l)
  {
    RunKeepsInv(run, i);
    assert Counted(run[i], l);
  }

  /** `a` is `l` or one of the layer sets above it. */
  predicate OnChain(layers: seq<Layer>, l: Lid, a: Lid)
    requires l < |layers|
  {
    a == l || match layers[l].parent case Some(p) => p < l && OnChain(layers, p, a) case None => false
  }

  lemma {:induction false} ChainOpen(s: State, l: Lid, a: Lid)
    requires Inv(s) && Alive(s, l) && OnChain(s.layers, l, a)
    ensures Alive(s, a) && s.layers[a].closes == 0 && On(s.closing, a) == {}
    decreases l
  {
    assert Counted(s, l);
    if a != l {
      ParentAlive(s, l);
      ChainOpen(s, s.layers[l].parent.value, a);
    }
  }

  /** No files are closed, or about to be closed, on the parent chain of an open handle or of
      a layer set that a call uses. */
  lemma {:induction false} OpenHandlesKeepTheirChain(run: seq<State>, i: nat, l: Lid, a: Lid)
    requires Run(run) && i < |run| && l < |run[i].layers| && OnChain(run[i].layers, l, a)
    requires (exists h :: h in run[i].handles && run[i].handles[h] == l) || (exists t :: t in run[i].holding && run[i].holding[t] == l)
    ensures a < |run[i].layers| && run[i].layers[a].closes == 0 && On(run[i].closing, a) == {}
  {
    var s := run[i];
    RunKeepsInv(run, i);
    assert Counted(s, l);
    if h :| h in s.handles && s.handles[h] == l {
      OnMember(s.handles, h, l);
    } else {
      var t :| t in s.holding && s.holding[t] == l;
      OnMember(s.holding, t, l);
    }
    ChainOpen(s, l, a);
  }

  lemma {:induction false} ClosedFrom(s: State, l: Lid)
    requires Inv(s) && s.handles == map[] && s.holding == map[] && s.closing == map[] && l <= |s.layers|
    ensures forall k :: l <= k < |s.layers| ==> s.layers[k].closes == 1
    decreases |s.layers| - l
  {
    if l < |s.layers| {
      ClosedFrom(s, l + 1);
      assert Counted(s, l);
      assert s.news == map[];
      forall c | c in s.linked ensures s.linked[c] != l { assert Linked(s, c); }
      assert On(s.linked, l) == {} && On(s.handles, l) == {} && On(s.holding, l) == {} && On(s.news, l) == {} && On(s.closing, l) == {};
    }
  }

  /** The files of a layer set are closed at most once, and exactly once, up to the root, when
      all handles are closed and all calls have returned. */
  lemma {:induction false} ClosedOnce(run: seq<State>, i: nat)
    requires Run(run) && i < |run|
    ensures forall l :: 0 <= l < |run[i].layers| ==> run[i].layers[l].closes <= 1
    ensures run[i].handles == map[] && run[i].holding == map[] && run[i].closing == map[] ==>
      forall l :: 0 <= l < |run[i].layers| ==> run[i].layers[l].closes == 1
  {
    RunKeepsInv(run, i);
    forall l | 0 <= l < |run[i].layers| ensures run[i].layers[l].closes <= 1 { assert Counted(run[i], l); }
    if run[i].handles == map[] && run[i].holding == map[] && run[i].closing == map[] { ClosedFrom(run[i], 0); }
  }
}

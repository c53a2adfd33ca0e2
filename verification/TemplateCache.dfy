/**
 * The copy-on-write cache of looked-up templates. A load works on a snapshot of the published runtime and, under
 * templateMutex, publishes a copy of the current one with its result added.
 */
module TemplateCache {
  import opened Text

  type Template = nat

  /** Within one version an engine answers every lookup the same way. */
  type Engine = map<string, Template>

  datatype Runtime = Runtime(version: nat, engines: seq<Engine>, templateMap: map<string, Template>)

  datatype Request = Request(name: string, lang: string) {
    function LangName(): string {
      if lang != "" then name + "." + lang else name
    }

    /** The two map keys the request looks at and may write. */
    function Keys(): set<string> {
      {name, LangName()}
    }
  }

  /** The first engine that knows the localized or else the plain name. */
  function EngineLookup(engines: seq<Engine>, q: Request): Option<Template> {
    if engines == [] then None
    else if q.LangName() in engines[0] then Some(engines[0][q.LangName()])
    else if q.name in engines[0] then Some(engines[0][q.name])
    else EngineLookup(engines[1..], q)
  }

  /** What one engine answers: the localized template if it knows it, else the plain one. */
  predicate Answers(engine: Engine, name: string, lang: string, t: Option<Template>) {
    var local := name + "." + lang;
    if lang != "" && local in engine then t == Some(engine[local])
    else if name in engine then t == Some(engine[name])
    else t == None
  }

  /** The first engine that answers at all has the say, even if a later one knows the localized name. */
  lemma {:induction false} FirstEngineAnswers(engines: seq<Engine>, q: Request)
    ensures var t := EngineLookup(engines, q);
      if t.None? then forall i :: 0 <= i < |engines| ==> Answers(engines[i], q.name, q.lang, None)
      else exists i :: 0 <= i < |engines| && Answers(engines[i], q.name, q.lang, t)
                       && forall j :: 0 <= j < i ==> Answers(engines[j], q.name, q.lang, None)
  {
    if engines != [] {
      var t := EngineLookup(engines, q);
      if Answers(engines[0], q.name, q.lang, None) {
        FirstEngineAnswers(engines[1..], q);
        assert forall i :: 0 <= i < |engines| - 1 ==> engines[1..][i] == engines[i + 1];
        if t.Some? {
          var i :| 0 <= i < |engines| - 1 && Answers(engines[1..][i], q.name, q.lang, t)
                   && forall j :: 0 <= j < i ==> Answers(engines[1..][j], q.name, q.lang, None);
          forall j | 0 <= j < i + 1 ensures Answers(engines[j], q.name, q.lang, None) {
            assert j > 0 ==> engines[j] == engines[1..][j - 1];
          }
          assert Answers(engines[i + 1], q.name, q.lang, t);
        }
      } else {
        assert Answers(engines[0], q.name, q.lang, t);
      }
    }
  }

  /** What templateLoad returns from a given runtime. */
  function Resolve(rt: Runtime, q: Request): Option<Template> {
    if q.LangName() in rt.templateMap then Some(rt.templateMap[q.LangName()])
    else if q.name in rt.templateMap then Some(rt.templateMap[q.name])
    else EngineLookup(rt.engines, q)
  }

  /** The cache is asked like an engine before all others. */
  lemma CacheAnswersFirst(rt: Runtime, q: Request)
    ensures Answers(rt.templateMap, q.name, q.lang, None) ==> Resolve(rt, q) == EngineLookup(rt.engines, q)
    ensures !Answers(rt.templateMap, q.name, q.lang, None) ==> Answers(rt.templateMap, q.name, q.lang, Resolve(rt, q))
  {
  }

  /** The load goes on to publish what it found. */
  predicate Stores(rt: Runtime, q: Request) {
    q.LangName() !in rt.templateMap && Resolve(rt, q).Some?
  }

  function Filled(current: Runtime, q: Request, t: Template): Runtime {
    var m := current.templateMap[q.LangName() := t];
    current.(templateMap := if q.name in m then m else m[q.name := t])
  }

  // ---------- the loader and its runs ----------

  /** Every runtime ever published, the current one last; a load may still hold any of them. */
  datatype Loader = Loader(loadVersionSeed: nat, history: seq<Runtime>)

  datatype Step =
    | Refresh(engines: seq<Engine>, templateMap: map<string, Template>)
    | RefreshFails                   // no engine could be made: the seed moves on, nothing is published
    | Load(snapshot: nat, q: Request)

  predicate Started(l: Loader) {
    |l.history| == 1 && l.history[0].version <= l.loadVersionSeed
  }

  predicate Enabled(l: Loader, step: Step) {
    step.Load? ==> step.snapshot < |l.history|
  }

  function Apply(l: Loader, step: Step): Loader
    requires l.history != [] && Enabled(l, step)
  {
    match step
    case Refresh(engines, templateMap) =>
      Loader(l.loadVersionSeed + 1, l.history + [Runtime(l.loadVersionSeed + 1, engines, templateMap)])
    case RefreshFails => l.(loadVersionSeed := l.loadVersionSeed + 1)
    case Load(i, q) =>
      var current := l.history[|l.history| - 1];
      if Stores(l.history[i], q) && current.version == l.history[i].version
      then l.(history := l.history + [Filled(current, q, Resolve(l.history[i], q).value)])
      else l
  }

  /** The requests of a run come from qs. */
  ghost predicate IsRun(states: seq<Loader>, steps: seq<Step>, qs: set<Request>) {
    && |states| == |steps| + 1
    && (forall i :: 0 <= i < |states| ==> states[i].history != [])
    && forall i {:trigger steps[i]} :: 0 <= i < |steps| ==>
         && Enabled(states[i], steps[i]) && states[i + 1] == Apply(states[i], steps[i])
         && (steps[i].Load? ==> steps[i].q in qs)
  }

  // ---------- versions ----------

  /** The version has not decreased; if it is the same, the engines are too and the known names have only grown. */
  ghost predicate Succeeds(a: Runtime, b: Runtime) {
    && a.version <= b.version
    && (a.version == b.version ==> a.engines == b.engines && a.templateMap.Keys <= b.templateMap.Keys)
  }

  ghost predicate Ordered(l: Loader) {
    && l.history != []
    && (forall i :: 0 <= i < |l.history| ==> l.history[i].version <= l.loadVersionSeed)
    && forall i, j {:trigger Succeeds(l.history[i], l.history[j])} ::
         0 <= i <= j < |l.history| ==> Succeeds(l.history[i], l.history[j])
  }

  lemma StepKeepsOrdered(l: Loader, step: Step)
    requires Ordered(l) && Enabled(l, step)
    ensures Ordered(Apply(l, step))
    ensures l.history <= Apply(l, step).history
  {
    var h, h' := l.history, Apply(l, step).history;
    forall i, j | 0 <= i <= j < |h'| ensures Succeeds(h'[i], h'[j]) {
      if j < |h| {
        assert Succeeds(h[i], h[j]);
      } else if i < |h| {
        assert Succeeds(h[i], h[|h| - 1]);
      }
    }
  }

  /** A load begun on an old version publishes nothing into a newer one. */
  lemma OldLoadPublishesNothing(l: Loader, i: nat, q: Request)
    requires Ordered(l) && i < |l.history|
    requires l.history[i].version != l.history[|l.history| - 1].version
    ensures l.history[i].version < l.history[|l.history| - 1].version
    ensures Apply(l, Load(i, q)) == l
  {
    assert Succeeds(l.history[i], l.history[|l.history| - 1]);
  }

  /** What one load publishes is still there, unchanged or overwritten, after any later steps of the same version. */
  lemma {:induction false} FillsAreKept(states: seq<Loader>, steps: seq<Step>, qs: set<Request>, j: nat, k: nat)
    requires IsRun(states, steps, qs) && Ordered(states[0]) && j <= k < |states|
    ensures states[j].history <= states[k].history && Ordered(states[k])
    ensures Succeeds(states[j].history[|states[j].history| - 1], states[k].history[|states[k].history| - 1])
    decreases k
  {
    if k > 0 {
      if j < k {
        FillsAreKept(states, steps, qs, j, k - 1);
      } else {
        FillsAreKept(states, steps, qs, k - 1, k - 1);
      }
      assert Enabled(states[k - 1], steps[k - 1]);
      StepKeepsOrdered(states[k - 1], steps[k - 1]);
    }
    assert Succeeds(states[k].history[|states[j].history| - 1], states[k].history[|states[k].history| - 1]);
  }

  /** A Refresh publishes what it was given, under a version above all before. */
  lemma RefreshTakesOver(l: Loader, engines: seq<Engine>, templateMap: map<string, Template>)
    requires Ordered(l)
    ensures var h, t := l.history, Apply(l, Refresh(engines, templateMap)).history;
      && |t| == |h| + 1 && h <= t && t[|h|].engines == engines && t[|h|].templateMap == templateMap
      && forall i :: 0 <= i < |h| ==> h[i].version < t[|h|].version
  {
  }

  /**
   * A load that found a template, and found no localized one in the cache, makes the answer known under the
   * localized name, and under the plain one if that was not known; nothing else changes.
   */
  lemma LoadPublishes(l: Loader, i: nat, q: Request)
    requires Ordered(l) && i < |l.history|
    ensures var h, t := l.history, Apply(l, Load(i, q)).history;
      var local := if q.lang == "" then q.name else q.name + "." + q.lang;
      var found, last := Resolve(h[i], q), h[|h| - 1];
      if found.None? || local in h[i].templateMap || h[i].version != last.version then t == h
      else
        && |t| == |h| + 1 && h <= t && t[|h|].version == last.version && t[|h|].engines == last.engines
        && t[|h|].templateMap.Keys == last.templateMap.Keys + {local, q.name}
        && t[|h|].templateMap[local] == found.value
        && (q.name !in last.templateMap ==> t[|h|].templateMap[q.name] == found.value)
        && forall k :: k in last.templateMap && k != local ==> t[|h|].templateMap[k] == last.templateMap[k]
  {
  }

  // ---------- transparency ----------

  /** The runtime a version began with. */
  function Base(history: seq<Runtime>, i: nat): (b: Runtime)
    requires i < |history|
    ensures b.version == history[i].version && b in history
  {
    if i > 0 && history[i - 1].version == history[i].version then Base(history, i - 1) else history[i]
  }

  /** No two different requests share a key. */
  ghost predicate Disjoint(qs: set<Request>) {
    forall p, q :: p in qs && q in qs && p != q ==> p.Keys() !! q.Keys()
  }

  /** The request's localized name is cached with the answer the version began with. */
  predicate Remembered(b: Runtime, rt: Runtime, q: Request) {
    && q.LangName() in rt.templateMap
    && Resolve(b, q) == Some(rt.templateMap[q.LangName()])
  }

  /** rt is b with answers to some of the requests filled in. */
  ghost predicate Grown(b: Runtime, rt: Runtime, qs: set<Request>) {
    && rt.version == b.version && rt.engines == b.engines
    && b.templateMap.Keys <= rt.templateMap.Keys
    && (forall k :: k in b.templateMap ==> rt.templateMap[k] == b.templateMap[k])
    && forall k {:trigger Answered(b, rt, qs, k)} :: k in rt.templateMap && k !in b.templateMap ==> Answered(b, rt, qs, k)
  }

  /** The key was written for a request whose answer is remembered. */
  ghost predicate Answered(b: Runtime, rt: Runtime, qs: set<Request>, k: string) {
    exists q :: q in qs && k in q.Keys() && Remembered(b, rt, q)
  }

  lemma SharedKeySameRequest(qs: set<Request>, p: Request, q: Request, k: string)
    requires Disjoint(qs) && p in qs && q in qs && k in p.Keys() && k in q.Keys()
    ensures p == q
  {
  }

  lemma GrownResolves(b: Runtime, rt: Runtime, qs: set<Request>, q: Request)
    requires Disjoint(qs) && Grown(b, rt, qs) && q in qs
    ensures Resolve(rt, q) == Resolve(b, q)
  {
    forall k | k in q.Keys() && k in rt.templateMap && k !in b.templateMap ensures Remembered(b, rt, q) {
      assert Answered(b, rt, qs, k);
      var p :| p in qs && k in p.Keys() && Remembered(b, rt, p);
      SharedKeySameRequest(qs, p, q, k);
    }
  }

  lemma FillGrows(b: Runtime, snapshot: Runtime, current: Runtime, qs: set<Request>, q: Request)
    requires Disjoint(qs) && Grown(b, snapshot, qs) && Grown(b, current, qs) && q in qs && Stores(snapshot, q)
    ensures Grown(b, Filled(current, q, Resolve(snapshot, q).value), qs)
  {
    GrownResolves(b, snapshot, qs, q);
    var filled := Filled(current, q, Resolve(snapshot, q).value);
    assert Remembered(b, filled, q);
    forall k | k in filled.templateMap && k !in b.templateMap ensures Answered(b, filled, qs, k) {
      if k !in q.Keys() {
        assert Answered(b, current, qs, k);
        var p :| p in qs && k in p.Keys() && Remembered(b, current, p);
        assert p.LangName() in q.Keys() ==> p == q by {
          if p.LangName() in q.Keys() { SharedKeySameRequest(qs, p, q, p.LangName()); }
        }
        assert Remembered(b, filled, p);
      }
    }
  }

  /** Every published runtime is what its version began with, plus remembered answers. */
  ghost predicate AllGrown(l: Loader, qs: set<Request>) {
    && Ordered(l)
    && forall i {:trigger Grown(Base(l.history, i), l.history[i], qs)} ::
         0 <= i < |l.history| ==> Grown(Base(l.history, i), l.history[i], qs)
  }

  lemma {:induction false} BaseStable(history: seq<Runtime>, more: seq<Runtime>, i: nat)
    requires i < |history|
    ensures Base(history + more, i) == Base(history, i)
  {
    if i > 0 {
      BaseStable(history, more, i - 1);
    }
  }

  lemma {:induction false} SameVersionSameBase(l: Loader, i: nat, j: nat)
    requires Ordered(l) && i <= j < |l.history| && l.history[i].version == l.history[j].version
    ensures Base(l.history, i) == Base(l.history, j)
    decreases j
  {
    if i < j {
      assert Succeeds(l.history[i], l.history[j - 1]) && Succeeds(l.history[j - 1], l.history[j]);
      SameVersionSameBase(l, i, j - 1);
    }
  }

  lemma StepKeepsAllGrown(l: Loader, step: Step, qs: set<Request>)
    requires Disjoint(qs) && AllGrown(l, qs) && Enabled(l, step) && (step.Load? ==> step.q in qs)
    ensures AllGrown(Apply(l, step), qs)
  {
    StepKeepsOrdered(l, step);
    var l', n := Apply(l, step), |l.history| - 1;
    if l'.history != l.history {
      var last := l'.history[n + 1];
      assert l'.history == l.history + [last];
      LastGrown(l, step, qs);
      forall i: nat | i < |l'.history| ensures Grown(Base(l'.history, i), l'.history[i], qs) {
        if i <= n {
          BaseStable(l.history, [last], i);
          assert Grown(Base(l.history, i), l.history[i], qs);
        }
      }
    }
  }

  lemma LastGrown(l: Loader, step: Step, qs: set<Request>)
    requires Disjoint(qs) && AllGrown(l, qs) && Enabled(l, step) && (step.Load? ==> step.q in qs)
    requires |Apply(l, step).history| == |l.history| + 1
    ensures Grown(Base(Apply(l, step).history, |l.history|), Apply(l, step).history[|l.history|], qs)
  {
    var l', n := Apply(l, step), |l.history| - 1;
    assert l'.history == l.history + [l'.history[n + 1]];
    BaseStable(l.history, [l'.history[n + 1]], n);
    if step.Load? {
      SameVersionSameBase(l, step.snapshot, n);
      assert Grown(Base(l.history, step.snapshot), l.history[step.snapshot], qs);
      assert Grown(Base(l.history, n), l.history[n], qs);
      FillGrows(Base(l.history, n), l.history[step.snapshot], l.history[n], qs, step.q);
    }
  }

  lemma {:induction false} RunKeepsAllGrown(states: seq<Loader>, steps: seq<Step>, qs: set<Request>, k: nat)
    requires Disjoint(qs) && IsRun(states, steps, qs) && AllGrown(states[0], qs) && k < |states|
    ensures AllGrown(states[k], qs)
  {
    if k > 0 {
      RunKeepsAllGrown(states, steps, qs, k - 1);
      assert Enabled(states[k - 1], steps[k - 1]);
      StepKeepsAllGrown(states[k - 1], steps[k - 1], qs);
    }
  }

  /** A load from any published runtime answers as if nothing had been cached since its Refresh. */
  ghost predicate Transparent(l: Loader, qs: set<Request>) {
    forall i, q :: 0 <= i < |l.history| && q in qs ==> Resolve(l.history[i], q) == Resolve(Base(l.history, i), q)
  }

  /** Over every run and every interleaving of loads of these requests, the cache does not show. */
  ghost predicate AlwaysTransparent(qs: set<Request>) {
    forall states: seq<Loader>, steps: seq<Step>, k: nat :: IsRun(states, steps, qs) && Started(states[0]) && k < |states| ==>
      Transparent(states[k], qs)
  }

  lemma DisjointIsTransparent(qs: set<Request>)
    requires Disjoint(qs)
    ensures AlwaysTransparent(qs)
  {
    forall states: seq<Loader>, steps: seq<Step>, k: nat | IsRun(states, steps, qs) && Started(states[0]) && k < |states|
      ensures Transparent(states[k], qs)
    {
      assert Grown(Base(states[0].history, 0), states[0].history[0], qs);
      RunKeepsAllGrown(states, steps, qs, k);
      forall i, q | 0 <= i < |states[k].history| && q in qs
        ensures Resolve(states[k].history[i], q) == Resolve(Base(states[k].history, i), q)
      {
        assert Grown(Base(states[k].history, i), states[k].history[i], qs);
        GrownResolves(Base(states[k].history, i), states[k].history[i], qs, q);
      }
    }
  }

  /** One load of `first` from a fresh runtime with this engine changes the answer to `second`. */
  predicate Disturbs(engine: Engine, first: Request, second: Request) {
    var b := Runtime(0, [engine], map[]);
    Stores(b, first) && Resolve(Filled(b, first, Resolve(b, first).value), second) != Resolve(b, second)
  }

  lemma LangNameLonger(q: Request)
    ensures |q.LangName()| >= |q.name| && (q.lang != "" <==> |q.LangName()| > |q.name|)
  {
  }

  /** Requests that share a key disturb each other, in one order or the other, for some engine. */
  lemma SharedKeyDisturbs(p: Request, q: Request) returns (engine: Engine, first: Request, second: Request)
    requires p != q && !(p.Keys() !! q.Keys())
    ensures {first, second} == {p, q} && Disturbs(engine, first, second)
  {
    LangNameLonger(p);
    LangNameLonger(q);
    if p.name == q.name {
      first, second := if p.lang != "" then p else q, if p.lang != "" then q else p;
      LangNameInjective(first, second);
      engine := map[first.LangName() := 0, second.LangName() := 1];
      FillOfOneEngine(engine, first, 0);
      assert EngineLookup([engine], second) == Some(1);
    } else if p.LangName() == q.name || q.LangName() == p.name {
      first, second := if p.LangName() == q.name then p else q, if p.LangName() == q.name then q else p;
      engine := map[first.name := 0];
      FillOfOneEngine(engine, first, 0);
      assert EngineLookup([engine], second) == None;
    } else {
      assert p.LangName() == q.LangName();
      first, second := p, q;
      engine := map[p.name := 0, q.name := 1];
      FillOfOneEngine(engine, first, 0);
      assert EngineLookup([engine], second) == Some(1);
    }
  }

  lemma FillOfOneEngine(engine: Engine, q: Request, t: Template)
    requires if q.LangName() in engine then engine[q.LangName()] == t else q.name in engine && engine[q.name] == t
    ensures var b := Runtime(0, [engine], map[]);
      Resolve(b, q) == Some(t) && Filled(b, q, t).templateMap == map[q.LangName() := t, q.name := t]
  {
  }

  lemma LangNameInjective(p: Request, q: Request)
    requires p.name == q.name && p != q
    ensures p.LangName() != q.LangName()
  {
    LangNameLonger(p);
    LangNameLonger(q);
    if p.lang != "" && q.lang != "" {
      assert p.lang == p.LangName()[|p.name| + 1..] && q.lang == q.LangName()[|q.name| + 1..];
    }
  }

  /** A run of one load that shows the difference. */
  lemma DisturbanceIsARun(qs: set<Request>, engine: Engine, first: Request, second: Request)
    requires first in qs && second in qs && Disturbs(engine, first, second)
    ensures !AlwaysTransparent(qs)
  {
    var b := Runtime(0, [engine], map[]);
    var l := Loader(0, [b]);
    var after := Apply(l, Load(0, first));
    var states, steps := [l, after], [Load(0, first)];
    assert IsRun(states, steps, qs) && Started(states[0]);
    assert after.history[1] == Filled(b, first, Resolve(b, first).value);
    assert Base(after.history, 0) == b;
    assert Base(after.history, 1) == b;
    assert !Transparent(states[1], qs);
  }

  lemma TransparentIsDisjoint(qs: set<Request>)
    requires AlwaysTransparent(qs)
    ensures Disjoint(qs)
  {
    if p, q :| p in qs && q in qs && p != q && !(p.Keys() !! q.Keys()) {
      var engine, first, second := SharedKeyDisturbs(p, q);
      assert first in {p, q} && second in {p, q};
      DisturbanceIsARun(qs, engine, first, second);
    }
  }

  /** The cache is transparent on exactly the sets of requests whose keys do not clash. */
  lemma TransparentIffDisjoint(qs: set<Request>)
    ensures AlwaysTransparent(qs) <==> Disjoint(qs)
  {
    if Disjoint(qs) { DisjointIsTransparent(qs); }
    if AlwaysTransparent(qs) { TransparentIsDisjoint(qs); }
  }

  predicate EndsWith(s: string, suffix: string) {
    |s| >= |suffix| && s[|s| - |suffix|..] == suffix
  }

  /** One language, and no name that already ends in it: the case of a site with a single locale. */
  lemma OneLanguageIsDisjoint(qs: set<Request>, lang: string)
    requires forall q :: q in qs ==> q.lang == lang && (lang != "" ==> !EndsWith(q.name, "." + lang))
    ensures Disjoint(qs)
  {
    forall p, q | p in qs && q in qs && p != q ensures p.Keys() !! q.Keys() {
      assert lang != "" ==> EndsWith(p.LangName(), "." + lang) && EndsWith(q.LangName(), "." + lang);
      assert lang != "" ==> p.name == p.LangName()[..|p.LangName()| - |lang| - 1];
      assert lang != "" ==> q.name == q.LangName()[..|q.LangName()| - |lang| - 1];
    }
  }

  // ---------- the loader object ----------

  class TemplateLoader {
    var loadVersionSeed: nat
    var runtimeLoader: Runtime
    ghost var state: Loader

    ghost predicate Valid()
      reads this
    {
      && Ordered(state)
      && loadVersionSeed == state.loadVersionSeed
      && runtimeLoader == state.history[|state.history| - 1]
    }

    /** enginesOk says whether every configured engine could be created. */
    method Refresh(enginesOk: bool, engines: seq<Engine>, parsed: map<string, Template>)
      requires Valid()
      modifies this
      ensures Valid()
      ensures state == Apply(old(state), if enginesOk then Step.Refresh(engines, parsed) else RefreshFails)
    {
      loadVersionSeed := loadVersionSeed + 1;
      ghost var step := if enginesOk then Step.Refresh(engines, parsed) else RefreshFails;
      StepKeepsOrdered(state, step);
      state := Apply(state, step);
      if enginesOk {
        runtimeLoader := Runtime(loadVersionSeed, engines, parsed);
      }
    }

    /** templateLoad on a runtime published earlier, with the lookup and the publication it may lead to. */
    method TemplateLoad(snapshot: Runtime, name: string, lang: string, ghost i: nat) returns (tmpl: Option<Template>)
      requires Valid() && i < |state.history| && snapshot == state.history[i]
      modifies this
      ensures Valid() && state == Apply(old(state), Load(i, Request(name, lang)))
      ensures tmpl == Resolve(snapshot, Request(name, lang))
    {
      var q := Request(name, lang);
      StepKeepsOrdered(state, Load(i, q));
      var langName := name;
      tmpl := None;
      if lang != "" {
        langName := name + "." + lang;
        if langName in snapshot.templateMap {
          return Some(snapshot.templateMap[langName]);
        }
        if name in snapshot.templateMap {
          tmpl := Some(snapshot.templateMap[name]);
        }
      } else if name in snapshot.templateMap {
        return Some(snapshot.templateMap[name]);
      }
      if tmpl.None? {
        tmpl := FindInEngines(snapshot.engines, langName, name, q);
        if tmpl.None? {
          return;
        }
      }
      if runtimeLoader.version == snapshot.version {
        var newTemplateMap := runtimeLoader.templateMap[langName := tmpl.value];
        if name !in newTemplateMap {
          newTemplateMap := newTemplateMap[name := tmpl.value];
        }
        runtimeLoader := runtimeLoader.(templateMap := newTemplateMap);
      }
      state := Apply(state, Load(i, q));
    }
  }

  method FindInEngines(engines: seq<Engine>, langName: string, name: string,
                       ghost q: Request) returns (tmpl: Option<Template>)
    requires langName == q.LangName() && name == q.name
    ensures tmpl == EngineLookup(engines, q)
  {
    var i := 0;
    while i < |engines|
      invariant 0 <= i <= |engines|
      invariant EngineLookup(engines[i..], q) == EngineLookup(engines, q)
    {
      if langName in engines[i] {
        return Some(engines[i][langName]);
      }
      if name in engines[i] {
        return Some(engines[i][name]);
      }
      assert engines[i..][1..] == engines[i + 1..];
      i := i + 1;
    }
    return None;
  }
}

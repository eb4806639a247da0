/**
  The plugin registry and the status manager. Enabling a captcha or CDN plugin disables the
  other enabled plugins of that kind.
*/
module Registry {
  datatype Plugin = Plugin(slug: string, isCaptcha: bool, isCDN: bool)

  type Status = map<string, bool>

  predicate Enabled(status: Status, slug: string) {
    slug in status && status[slug]
  }

  ghost predicate UniqueSlugs(ps: seq<Plugin>) {
    forall i, j :: 0 <= i < j < |ps| ==> ps[i].slug != ps[j].slug
  }

  predicate Registered(ps: seq<Plugin>, slug: string) {
    exists i :: 0 <= i < |ps| && ps[i].slug == slug
  }

  /** The plugins a call visits when its callback returns nil: those enabled, in registration order. */
  function Visited(ps: seq<Plugin>, status: Status): seq<Plugin> {
    if ps == [] then []
    else
      var last := ps[|ps| - 1];
      Visited(ps[..|ps| - 1], status) + if Enabled(status, last.slug) then [last] else []
  }

  /** There are two exclusive kinds: captchas and CDNs. A plugin may be of both. */
  predicate HasKind(p: Plugin, captcha: bool) {
    if captcha then p.isCaptcha else p.isCDN
  }

  function OfKind(ps: seq<Plugin>, captcha: bool): seq<Plugin> {
    if ps == [] then []
    else
      var last := ps[|ps| - 1];
      OfKind(ps[..|ps| - 1], captcha) + if HasKind(last, captcha) then [last] else []
  }

  /** The base stack after a plugin was offered to it. */
  function Offered(ps: seq<Plugin>, p: Plugin): seq<Plugin> {
    if Registered(ps, p.slug) then ps else ps + [p]
  }

  /** A registration stack. */
  class Stack {
    var plugins: seq<Plugin>

    constructor ()
      ensures plugins == []
    {
      plugins := [];
    }

    /** Refuses a slug that is already registered (the original panics). */
    method Register(p: Plugin) returns (ok: bool)
      modifies this
      ensures ok <==> forall q :: q in old(plugins) ==> q.slug != p.slug
      ensures plugins == if ok then old(plugins) + [p] else old(plugins)
    {
      for i := 0 to |plugins|
        invariant plugins == old(plugins)
        invariant forall j :: 0 <= j < i ==> plugins[j].slug != p.slug
      {
        if plugins[i].slug == p.slug {
          return false;
        }
      }
      plugins := plugins + [p];
      return true;
    }
  }

  lemma {:induction false} VisitedIs(ps: seq<Plugin>, status: Status)
    ensures forall p :: p in Visited(ps, status) <==> p in ps && Enabled(status, p.slug)
  {
    if ps != [] {
      VisitedIs(ps[..|ps| - 1], status);
      assert forall p :: p in ps <==> p in ps[..|ps| - 1] || p == ps[|ps| - 1];
    }
  }

  /** The slugs that must be disabled when the named plugin is enabled. */
  function Coordinated(ps: seq<Plugin>, status: Status, name: string): set<string> {
    if exists p :: p in ps && p.slug == name && Enabled(status, name)
    then set p | p in ps && p.slug != name && Enabled(status, p.slug) :: p.slug
    else {}
  }

  function Disabled(status: Status, slugs: set<string>): Status {
    map s | s in status.Keys + slugs :: if s in slugs then false else status[s]
  }

  /** The status after `Enable`. The CDN step sees the status that the captcha step left. */
  function AfterEnable(captchas: seq<Plugin>, cdns: seq<Plugin>, status: Status, name: string, enabled: bool): Status {
    var s := status[name := enabled];
    if !enabled then s
    else
      var s' := Disabled(s, Coordinated(captchas, s, name));
      Disabled(s', Coordinated(cdns, s', name))
  }

  /** The last enabled captcha in registration order, unless its slug is empty. */
  function CaptchaCalled(ps: seq<Plugin>, status: Status): seq<Plugin> {
    var enabled := Visited(ps, status);
    if enabled == [] || enabled[|enabled| - 1].slug == "" then [] else [enabled[|enabled| - 1]]
  }

  /** The plugin at this position is enabled, and none registered after it is. */
  predicate LastEnabledAt(ps: seq<Plugin>, status: Status, i: int) {
    && 0 <= i < |ps|
    && ps[i].slug in status && status[ps[i].slug]
    && forall j :: i < j < |ps| ==> ps[j].slug !in status || !status[ps[j].slug]
  }

  /** A call visits the enabled plugins in registration order, the last enabled one last. */
  lemma {:induction false} LastEnabledIs(ps: seq<Plugin>, status: Status)
    ensures forall i :: LastEnabledAt(ps, status, i) ==>
              Visited(ps, status) != [] && Visited(ps, status)[|Visited(ps, status)| - 1] == ps[i]
  {
    if ps != [] && !Enabled(status, ps[|ps| - 1].slug) {
      LastEnabledIs(ps[..|ps| - 1], status);
      assert forall i :: LastEnabledAt(ps, status, i) ==> LastEnabledAt(ps[..|ps| - 1], status, i);
    }
  }

  class StatusManager {
    const captchas: Stack
    const cdns: Stack
    var status: Status

    constructor (captchas: Stack, cdns: Stack)
      ensures this.captchas == captchas && this.cdns == cdns && status == map[]
    {
      this.captchas, this.cdns, status := captchas, cdns, map[];
    }

    method IsEnabled(name: string) returns (enabled: bool)
      ensures enabled <==> Enabled(status, name)
      ensures name !in status ==> !enabled
      ensures name in status ==> enabled == status[name]
    {
      return if name in status then status[name] else false;
    }

    /** One pass over a stack of plugins that can be disabled, gathering the others' slugs. */
    method CoordinatedPlugins(stack: Stack, name: string) returns (slugs: seq<string>)
      ensures forall s :: s in slugs <==> s in Coordinated(stack.plugins, status, name)
    {
      var isKind := false;
      slugs := [];
      for i := 0 to |stack.plugins|
        invariant isKind <==> exists j :: 0 <= j < i && stack.plugins[j].slug == name && Enabled(status, name)
        invariant forall s :: s in slugs <==>
                    exists j :: 0 <= j < i && stack.plugins[j].slug == s && s != name && Enabled(status, s)
      {
        var p := stack.plugins[i];
        var enabled := IsEnabled(p.slug);
        if enabled {
          if p.slug == name {
            isKind := true;
          } else {
            slugs := slugs + [p.slug];
          }
        }
      }
      if !isKind {
        slugs := [];
      }
    }

    method Enable(name: string, enabled: bool)
      modifies this
      ensures status == AfterEnable(captchas.plugins, cdns.plugins, old(status), name, enabled)
    {
      status := status[name := enabled];
      if !enabled {
        return;
      }
      var slugs := CoordinatedPlugins(captchas, name);
      DisableAll(slugs, Coordinated(captchas.plugins, status, name));
      slugs := CoordinatedPlugins(cdns, name);
      DisableAll(slugs, Coordinated(cdns.plugins, status, name));
    }

    /** Loads a saved status: its entries replace those of the same slugs, and the others stay. */
    method UnmarshalJSON(saved: Status)
      modifies this
      ensures status == old(status) + saved
    {
      status := status + saved;
    }

    method DisableAll(slugs: seq<string>, ghost named: set<string>)
      requires forall s :: s in slugs <==> s in named
      modifies this
      ensures status == Disabled(old(status), named)
    {
      for i := 0 to |slugs|
        invariant status.Keys == old(status).Keys + set j | 0 <= j < i :: slugs[j]
        invariant forall s :: s in status ==> status[s] == if s in slugs[..i] then false else old(status)[s]
      {
        status := status[slugs[i] := false];
      }
    }

    /** The first pass: it remembers the last slug visited. */
    method LastEnabledSlug() returns (slugName: string)
      ensures var e := Visited(captchas.plugins, status);
              slugName == if e == [] then "" else e[|e| - 1].slug
    {
      slugName := "";
      ghost var ps := captchas.plugins;
      for i := 0 to |captchas.plugins|
        invariant var e := Visited(ps[..i], status);
                  slugName == if e == [] then "" else e[|e| - 1].slug
      {
        VisitedNext(ps, i, status);
        var enabled := IsEnabled(captchas.plugins[i].slug);
        if enabled {
          slugName := captchas.plugins[i].slug;
        }
      }
      assert ps[..|ps|] == ps;
    }

    /** The second pass: it runs the callback on the enabled plugins of that slug. */
    method CallNamed(slugName: string) returns (called: seq<Plugin>)
      ensures called == WithSlug(Visited(captchas.plugins, status), slugName)
    {
      called := [];
      ghost var ps := captchas.plugins;
      for i := 0 to |captchas.plugins|
        invariant called == WithSlug(Visited(ps[..i], status), slugName)
      {
        var p := captchas.plugins[i];
        VisitedNext(ps, i, status);
        WithSlugAppend(Visited(ps[..i], status), p, slugName);
        var enabled := IsEnabled(p.slug);
        if enabled {
          if p.slug == slugName {
            called := called + [p];
          } else {
            assert called + [] == called;
          }
        } else {
          assert Visited(ps[..i], status) + [] == Visited(ps[..i], status);
        }
      }
      assert ps[..|ps|] == ps;
    }

    /** Runs a callback on one captcha plugin in two passes; `called` lists the runs. */
    method CallCaptcha() returns (called: seq<Plugin>)
      requires UniqueSlugs(captchas.plugins)
      ensures called == CaptchaCalled(captchas.plugins, status)
      ensures (forall p :: p in captchas.plugins ==> !Enabled(status, p.slug)) ==> called == []
      ensures forall i :: LastEnabledAt(captchas.plugins, status, i) ==>
                called == if captchas.plugins[i].slug == "" then [] else [captchas.plugins[i]]
    {
      LastEnabledIs(captchas.plugins, status);
      VisitedIs(captchas.plugins, status);
      assert Visited(captchas.plugins, status) != [] ==> Visited(captchas.plugins, status)[0] in Visited(captchas.plugins, status);
      var slugName := LastEnabledSlug();
      if slugName == "" {
        return [];
      }
      called := CallNamed(slugName);
      VisitedUnique(captchas.plugins, status);
      LastWithSlug(Visited(captchas.plugins, status));
    }
  }

  lemma VisitedNext(ps: seq<Plugin>, i: nat, status: Status)
    requires i < |ps|
    ensures Visited(ps[..i + 1], status) ==
            Visited(ps[..i], status) + if Enabled(status, ps[i].slug) then [ps[i]] else []
  {
    assert ps[..i + 1][..i] == ps[..i];
  }

  function WithSlug(ps: seq<Plugin>, slug: string): seq<Plugin> {
    if ps == [] then []
    else
      var last := ps[|ps| - 1];
      WithSlug(ps[..|ps| - 1], slug) + if last.slug == slug then [last] else []
  }

  lemma WithSlugAppend(ps: seq<Plugin>, p: Plugin, slug: string)
    ensures WithSlug(ps + [p], slug) == WithSlug(ps, slug) + if p.slug == slug then [p] else []
  {
    assert (ps + [p])[..|ps|] == ps;
  }

  lemma {:induction false} NoneWithSlug(ps: seq<Plugin>, slug: string)
    requires forall i :: 0 <= i < |ps| ==> ps[i].slug != slug
    ensures WithSlug(ps, slug) == []
  {
    if ps != [] {
      NoneWithSlug(ps[..|ps| - 1], slug);
    }
  }

  lemma LastWithSlug(ps: seq<Plugin>)
    requires UniqueSlugs(ps) && ps != []
    ensures WithSlug(ps, ps[|ps| - 1].slug) == [ps[|ps| - 1]]
  {
    NoneWithSlug(ps[..|ps| - 1], ps[|ps| - 1].slug);
  }

  lemma {:induction false} VisitedUnique(ps: seq<Plugin>, status: Status)
    requires UniqueSlugs(ps)
    ensures UniqueSlugs(Visited(ps, status))
  {
    if ps != [] {
      var front, last := ps[..|ps| - 1], ps[|ps| - 1];
      VisitedUnique(front, status);
      VisitedIs(front, status);
      forall p | p in Visited(front, status)
        ensures p.slug != last.slug
      {
        var i :| 0 <= i < |front| && front[i] == p;
        assert ps[i].slug != last.slug;
      }
    }
  }

  // ----- Registration -----

  /** All of a plugin's stacks, as `Register` fills them; only the two exclusive kinds are kept. */
  class Registrar {
    const base: Stack
    const captchas: Stack
    const cdns: Stack

    constructor ()
      ensures Valid() && base.plugins == [] && fresh(base) && fresh(captchas) && fresh(cdns)
    {
      base := new Stack();
      captchas := new Stack();
      cdns := new Stack();
    }

    /** The stacks of a kind hold exactly the registered plugins of that kind, in order; slugs are unique. */
    ghost predicate Valid()
      reads this, base, captchas, cdns
    {
      && base != captchas && base != cdns && captchas != cdns
      && UniqueSlugs(base.plugins)
      && captchas.plugins == OfKind(base.plugins, true)
      && cdns.plugins == OfKind(base.plugins, false)
    }

    method Register(p: Plugin) returns (ok: bool)
      requires Valid()
      modifies base, captchas, cdns
      ensures Valid()
      ensures ok <==> !Registered(old(base.plugins), p.slug)
      ensures base.plugins == Offered(old(base.plugins), p)
      ensures forall q :: q in captchas.plugins <==> q in base.plugins && q.isCaptcha
      ensures forall q :: q in cdns.plugins <==> q in base.plugins && q.isCDN
    {
      ghost var before := base.plugins;
      ok := base.Register(p);
      OfKindRegistered(base.plugins, true, p.slug);
      OfKindRegistered(base.plugins, false, p.slug);
      if !ok {
        return;
      }
      UniqueAppend(before, p);
      OfKindOffered(before, p, true);
      OfKindOffered(before, p, false);
      if p.isCaptcha {
        ok := captchas.Register(p);
      }
      if p.isCDN {
        ok := cdns.Register(p);
      }
    }
  }

  lemma UniqueAppend(ps: seq<Plugin>, p: Plugin)
    requires UniqueSlugs(ps) && !Registered(ps, p.slug)
    ensures UniqueSlugs(ps + [p])
  {
  }

  lemma OfKindAppend(ps: seq<Plugin>, p: Plugin, captcha: bool)
    ensures OfKind(ps + [p], captcha) == OfKind(ps, captcha) + if HasKind(p, captcha) then [p] else []
  {
    assert (ps + [p])[..|ps|] == ps;
  }

  /** A kind's stack has no slug that the base stack lacks, so it never refuses what the base accepts. */
  lemma {:induction false} OfKindRegistered(ps: seq<Plugin>, captcha: bool, slug: string)
    ensures Registered(OfKind(ps, captcha), slug) ==> Registered(ps, slug)
    ensures forall p :: p in OfKind(ps, captcha) <==> p in ps && HasKind(p, captcha)
  {
    if ps != [] {
      var front, last := ps[..|ps| - 1], ps[|ps| - 1];
      OfKindRegistered(front, captcha, slug);
      assert forall p :: p in ps <==> p in front || p == last;
      if Registered(front, slug) {
        var i :| 0 <= i < |front| && front[i].slug == slug;
        assert ps[i].slug == slug;
      }
      if last.slug == slug {
        assert ps[|ps| - 1].slug == slug;
      }
    }
  }

  /** What offering a new plugin to each kind's stack makes of it. */
  lemma OfKindOffered(ps: seq<Plugin>, p: Plugin, captcha: bool)
    requires !Registered(ps, p.slug)
    ensures !Registered(OfKind(ps, captcha), p.slug)
    ensures OfKind(ps + [p], captcha) == if HasKind(p, captcha) then OfKind(ps, captcha) + [p] else OfKind(ps, captcha)
  {
    OfKindAppend(ps, p, captcha);
    OfKindRegistered(ps, captcha, p.slug);
  }

  /** Each kind's stack has unique slugs, because the base stack has. */
  lemma {:induction false} OfKindUnique(ps: seq<Plugin>, captcha: bool)
    requires UniqueSlugs(ps)
    ensures UniqueSlugs(OfKind(ps, captcha))
  {
    if ps != [] {
      var front, last := ps[..|ps| - 1], ps[|ps| - 1];
      OfKindUnique(front, captcha);
      OfKindRegistered(front, captcha, last.slug);
      assert forall j :: 0 <= j < |front| ==> front[j].slug == ps[j].slug != last.slug;
      assert !Registered(OfKind(front, captcha), last.slug);
    }
  }

  // ----- Exclusivity -----

  ghost predicate AtMostOne(ps: seq<Plugin>, status: Status) {
    forall p, q :: p in ps && q in ps && Enabled(status, p.slug) && Enabled(status, q.slug) ==> p.slug == q.slug
  }

  /** The two slugs name different plugins of one kind. */
  ghost predicate Rivals(ps: seq<Plugin>, a: string, b: string) {
    a != b && (exists p :: p in ps && p.slug == a) && exists q :: q in ps && q.slug == b
  }

  /**
    Exactly what enabling changes: the named plugin becomes enabled, and of the others only
    those of a kind it shares become disabled.
  */
  lemma EnableChanges(captchas: seq<Plugin>, cdns: seq<Plugin>, status: Status, name: string, slug: string)
    ensures Enabled(AfterEnable(captchas, cdns, status, name, true), slug) <==>
            slug == name || (Enabled(status, slug) && !Rivals(captchas, name, slug) && !Rivals(cdns, name, slug))
  {
    var s := status[name := true];
    var s' := Disabled(s, Coordinated(captchas, s, name));
    assert Enabled(s', slug) <==> slug == name || (Enabled(status, slug) && !Rivals(captchas, name, slug));
    assert Enabled(s', name);
  }

  lemma DisableChanges(captchas: seq<Plugin>, cdns: seq<Plugin>, status: Status, name: string, slug: string)
    ensures Enabled(AfterEnable(captchas, cdns, status, name, false), slug) <==> slug != name && Enabled(status, slug)
  {
  }

  /** Each change of status keeps the bound of each kind. */
  lemma EnableKeepsAtMostOne(
    captchas: seq<Plugin>, cdns: seq<Plugin>, status: Status, name: string, enabled: bool, captcha: bool)
    requires AtMostOne(if captcha then captchas else cdns, status)
    ensures AtMostOne(if captcha then captchas else cdns, AfterEnable(captchas, cdns, status, name, enabled))
  {
    var s := AfterEnable(captchas, cdns, status, name, enabled);
    forall slug
      ensures Enabled(s, slug) <==>
              if enabled
              then slug == name || (Enabled(status, slug) && !Rivals(captchas, name, slug) && !Rivals(cdns, name, slug))
              else slug != name && Enabled(status, slug)
    {
      if enabled {
        EnableChanges(captchas, cdns, status, name, slug);
      } else {
        DisableChanges(captchas, cdns, status, name, slug);
      }
    }
  }

  datatype Switch = Switch(name: string, enabled: bool)

  function AfterSwitches(captchas: seq<Plugin>, cdns: seq<Plugin>, status: Status, ss: seq<Switch>): Status {
    if ss == [] then status
    else
      var last := ss[|ss| - 1];
      AfterEnable(captchas, cdns, AfterSwitches(captchas, cdns, status, ss[..|ss| - 1]), last.name, last.enabled)
  }

  /** Over every sequence of changes, plugins that are both kinds included. */
  lemma {:induction false} SwitchesKeepExclusive(captchas: seq<Plugin>, cdns: seq<Plugin>, status: Status, ss: seq<Switch>)
    requires AtMostOne(captchas, status) && AtMostOne(cdns, status)
    ensures var s := AfterSwitches(captchas, cdns, status, ss); AtMostOne(captchas, s) && AtMostOne(cdns, s)
  {
    if ss != [] {
      var last, before := ss[|ss| - 1], AfterSwitches(captchas, cdns, status, ss[..|ss| - 1]);
      SwitchesKeepExclusive(captchas, cdns, status, ss[..|ss| - 1]);
      EnableKeepsAtMostOne(captchas, cdns, before, last.name, last.enabled, true);
      EnableKeepsAtMostOne(captchas, cdns, before, last.name, last.enabled, false);
    }
  }

  /** Enabling a captcha leaves it the only one, even from a status where several were enabled. */
  lemma EnableRestoresExclusive(captchas: seq<Plugin>, cdns: seq<Plugin>, status: Status, p: Plugin)
    requires p in captchas
    ensures AtMostOne(captchas, AfterEnable(captchas, cdns, status, p.slug, true))
  {
    var s := AfterEnable(captchas, cdns, status, p.slug, true);
    forall q | q in captchas && Enabled(s, q.slug)
      ensures q.slug == p.slug
    {
      EnableChanges(captchas, cdns, status, p.slug, q.slug);
    }
  }

  // ----- Registrations among the changes of status -----

  /** What is registered and what is enabled, at any time. The two need not agree. */
  datatype Server = Server(plugins: seq<Plugin>, status: Status)

  datatype Step = Register(plugin: Plugin) | Change(switch: Switch) | Load(saved: Status)

  function AfterStep(v: Server, step: Step): Server {
    match step
    case Load(saved) => v.(status := v.status + saved)
    case Register(p) => v.(plugins := Offered(v.plugins, p))
    case Change(Switch(name, enabled)) =>
      v.(status := AfterEnable(OfKind(v.plugins, true), OfKind(v.plugins, false), v.status, name, enabled))
  }

  /** The servers before, between and after the steps. */
  predicate Unfolds(vs: seq<Server>, steps: seq<Step>) {
    && |vs| == |steps| + 1
    && forall i :: 0 <= i < |steps| ==> vs[i + 1] == AfterStep(vs[i], steps[i])
  }

  ghost predicate Exclusive(v: Server, captcha: bool) {
    AtMostOne(OfKind(v.plugins, captcha), v.status)
  }

  /**
    The step registers a plugin that is already enabled while another of its kind is enabled
    too, or loads a status that enables one of the kind and leaves another of it enabled.
  */
  ghost predicate Clashes(v: Server, step: Step, captcha: bool) {
    match step
    case Register(p) =>
      && !Registered(v.plugins, p.slug) && HasKind(p, captcha) && Enabled(v.status, p.slug)
      && exists q :: q in v.plugins && HasKind(q, captcha) && Enabled(v.status, q.slug)
    case Load(saved) =>
      exists p, q :: p in v.plugins && q in v.plugins && HasKind(p, captcha) && HasKind(q, captcha) && p.slug != q.slug &&
                     Enabled(saved, p.slug) && (Enabled(saved, q.slug) || (q.slug !in saved && Enabled(v.status, q.slug)))
    case Change(_) => false
  }

  /** One more plugin keeps the bound iff it is disabled or every enabled one has its slug. */
  lemma AppendKeepsAtMostOneIff(ps: seq<Plugin>, p: Plugin, status: Status)
    requires AtMostOne(ps, status)
    ensures AtMostOne(ps + [p], status) <==>
            (Enabled(status, p.slug) ==> forall q :: q in ps && Enabled(status, q.slug) ==> q.slug == p.slug)
  {
    var all := ps + [p];
    assert p in all;
    assert forall q :: q in ps ==> q in all;
  }

  /** From a state within the bound of a kind, exactly the clashing steps lead out of it. */
  lemma StepKeepsExclusiveIff(v: Server, step: Step, captcha: bool)
    requires Exclusive(v, captcha)
    ensures Exclusive(AfterStep(v, step), captcha) <==> !Clashes(v, step, captcha)
  {
    match step
    case Load(saved) =>
      OfKindRegistered(v.plugins, captcha, "");
    case Change(Switch(name, enabled)) =>
      EnableKeepsAtMostOne(OfKind(v.plugins, true), OfKind(v.plugins, false), v.status, name, enabled, captcha);
    case Register(p) =>
      var ps := OfKind(v.plugins, captcha);
      if !Registered(v.plugins, p.slug) {
        OfKindOffered(v.plugins, p, captcha);
        OfKindRegistered(v.plugins, captcha, p.slug);
        AppendKeepsAtMostOneIff(ps, p, v.status);
      }
  }

  lemma {:induction false} ClashlessStaysExclusive(vs: seq<Server>, steps: seq<Step>, n: nat, captcha: bool)
    requires Unfolds(vs, steps) && n <= |steps| && Exclusive(vs[0], captcha)
    requires forall i :: 0 <= i < n ==> !Clashes(vs[i], steps[i], captcha)
    ensures Exclusive(vs[n], captcha)
  {
    if n > 0 {
      ClashlessStaysExclusive(vs, steps, n - 1, captcha);
      StepKeepsExclusiveIff(vs[n - 1], steps[n - 1], captcha);
    }
  }

  /**
    Over every interleaving of registrations, changes of status and loads of a saved one, from
    any plugins and any status within the bound, a kind never has two enabled plugins iff none
    of its plugins is registered while its slug and another of the kind are enabled, and no
    status is loaded that enables one of the kind and leaves another of it enabled.
  */
  lemma ExclusiveThroughoutIff(vs: seq<Server>, steps: seq<Step>, captcha: bool)
    requires Unfolds(vs, steps) && Exclusive(vs[0], captcha)
    ensures (forall i :: 0 <= i < |vs| ==> Exclusive(vs[i], captcha)) <==>
            (forall i :: 0 <= i < |steps| ==> !Clashes(vs[i], steps[i], captcha))
  {
    if i :| 0 <= i < |steps| && Clashes(vs[i], steps[i], captcha) {
      if Exclusive(vs[i], captcha) {
        StepKeepsExclusiveIff(vs[i], steps[i], captcha);
        assert !Exclusive(vs[i + 1], captcha);
      }
    } else {
      forall i | 0 <= i < |vs|
        ensures Exclusive(vs[i], captcha)
      {
        ClashlessStaysExclusive(vs, steps, i, captcha);
      }
    }
  }

  /** Two captchas registered after their slugs were enabled. */
  lemma LateRegistrationBreaksExclusive(a: Plugin, b: Plugin, vs: seq<Server>)
    requires a.isCaptcha && b.isCaptcha && a.slug != b.slug
    requires vs != [] && vs[0] == Server([], map[])
    requires Unfolds(vs, [Change(Switch(a.slug, true)), Change(Switch(b.slug, true)), Register(a), Register(b)])
    ensures exists i :: 0 <= i < |vs| && !Exclusive(vs[i], true)
  {
    var steps := [Change(Switch(a.slug, true)), Change(Switch(b.slug, true)), Register(a), Register(b)];
    assert vs[1] == AfterStep(vs[0], steps[0]) && vs[2] == AfterStep(vs[1], steps[1]) && vs[3] == AfterStep(vs[2], steps[2]);
    EnableChanges([], [], map[], a.slug, a.slug);
    EnableChanges([], [], vs[1].status, b.slug, a.slug);
    EnableChanges([], [], vs[1].status, b.slug, b.slug);
    assert vs[3].plugins == [a];
    assert a in vs[3].plugins && Clashes(vs[3], steps[3], true);
    ExclusiveThroughoutIff(vs, steps, true);
  }

  /** A saved status that enables two registered captchas is loaded as it is. */
  lemma LoadBreaksExclusive(a: Plugin, b: Plugin)
    requires a.isCaptcha && b.isCaptcha && a.slug != b.slug
    ensures var v, load := Server([a, b], map[]), Load(map[a.slug := true, b.slug := true]);
            Exclusive(v, true) && Clashes(v, load, true) && !Exclusive(AfterStep(v, load), true)
  {
    var v, load := Server([a, b], map[]), Load(map[a.slug := true, b.slug := true]);
    assert a in v.plugins && b in v.plugins;
    StepKeepsExclusiveIff(v, load, true);
  }

  lemma ExclusiveVisitsOne(ps: seq<Plugin>, status: Status)
    requires UniqueSlugs(ps)
    ensures AtMostOne(ps, status) <==> |Visited(ps, status)| <= 1
  {
    VisitedIs(ps, status);
    VisitedUnique(ps, status);
    var e := Visited(ps, status);
    if |e| > 1 {
      assert e[0] in e && e[1] in e && e[0].slug != e[1].slug;
    }
  }

  /** The two passes run the callback as one plain pass would iff at most one captcha is enabled and none without a slug. */
  lemma TwoPassesAreOneIff(ps: seq<Plugin>, status: Status)
    requires UniqueSlugs(ps)
    ensures CaptchaCalled(ps, status) == Visited(ps, status) <==>
            AtMostOne(ps, status) && forall p :: p in ps && Enabled(status, p.slug) ==> p.slug != ""
  {
    ExclusiveVisitsOne(ps, status);
    VisitedIs(ps, status);
    var e := Visited(ps, status);
    if e != [] {
      assert e[|e| - 1] in e;
    }
  }
}

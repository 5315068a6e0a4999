/**
 The widget's lifecycle read as phases: Pending, then exactly one of
 Resolved, Errored or Empty. `MountPhase` and `RenderPhase` describe the
 lifecycle directly in terms of phases; the lemmas below show that the
 flag-based state record of `Widget` implements that description.
 */
module Lifecycle {
  import PropertyBag
  import opened Widget

  datatype Phase<V> = Pending | Resolved(values: map<string, V>) | Errored | Empty

  /** How many of the three terminal flags are set. */
  function FlagCount<V>(s: State<V>): nat
  {
    (if s.isError then 1 else 0) + (if s.showNothing then 1 else 0) + (if s.isPromised then 1 else 0)
  }

  /** At most one of the three flags is set. */
  predicate AtMostOneFlag<V>(s: State<V>)
  {
    FlagCount(s) <= 1
  }

  /** Exactly one of the three flags is set. */
  predicate OneTerminalFlag<V>(s: State<V>)
  {
    FlagCount(s) == 1
  }

  /** The states a widget can be observed in: at most one flag, and a
      settled bag only when a view is configured to receive it. */
  predicate Coherent<P, V>(cfg: Config<P, V>, s: State<V>)
  {
    AtMostOneFlag(s) && (s.isPromised ==> cfg.view.Some?)
  }

  /** The phase a state stands for. */
  function PhaseOf<V>(s: State<V>): (ph: Phase<V>)
    requires AtMostOneFlag(s)
    ensures ph.Pending? <==> !s.isError && !s.showNothing && !s.isPromised
    ensures ph.Errored? <==> s.isError
    ensures ph.Empty? <==> s.showNothing
    ensures ph.Resolved? <==> s.isPromised
    ensures ph.Resolved? ==> ph.values == s.result
  {
    if s.isError then Errored
    else if s.showNothing then Empty
    else if s.isPromised then Resolved(s.result)
    else Pending
  }

  /** The phase mounting leads to, stated per outcome. */
  function MountPhase<P, V>(cfg: Config<P, V>, controllerProps: P): Phase<V>
  {
    if cfg.view.None? then Empty
    else
      match cfg.controller(controllerProps)
      case Throws => Errored
      case Nullish => Empty
      case Yields(bag) =>
        if PropertyBag.SomeRejects(bag) then Errored
        else Resolved(map k | k in bag :: bag[k].value)
  }

  /** What each phase shows. */
  function RenderPhase<P, V>(cfg: Config<P, V>, ph: Phase<V>): Output<V>
    requires ph.Resolved? ==> cfg.view.Some?
  {
    match ph
    case Pending => if cfg.pendingView.Some? then PendingViewOut(cfg.pendingView.value) else Nothing
    case Empty => Nothing
    case Resolved(values) => Tagged(cfg.name, cfg.view.value, values)
    case Errored => if cfg.errorView.Some? then ErrorViewOut(cfg.errorView.value) else Nothing
  }

  /** A fresh widget is Pending and shows its pending view, if any. */
  lemma InitialIsPending<P, V>(cfg: Config<P, V>)
    ensures Coherent(cfg, Initial<V>()) && PhaseOf(Initial<V>()) == Pending
    ensures Render(cfg, Initial<V>()) ==
      (if cfg.pendingView.Some? then PendingViewOut(cfg.pendingView.value) else Nothing)
  {
  }

  /** From the initial state a single mount sets exactly one terminal flag,
      lands in the phase `MountPhase` names, and stays coherent. */
  lemma MountRefinesPhase<P, V>(cfg: Config<P, V>, controllerProps: P)
    ensures OneTerminalFlag(Mount(cfg, controllerProps, Initial()))
    ensures Coherent(cfg, Mount(cfg, controllerProps, Initial()))
    ensures PhaseOf(Mount(cfg, controllerProps, Initial())) == MountPhase(cfg, controllerProps)
    ensures !MountPhase(cfg, controllerProps).Pending?
  {
  }

  /** On every coherent state, `render` shows what the phase prescribes. */
  lemma RenderRefinesPhase<P, V>(cfg: Config<P, V>, s: State<V>)
    requires Coherent(cfg, s)
    ensures Render(cfg, s) == RenderPhase(cfg, PhaseOf(s))
    ensures !Render(cfg, s).UndefinedElement?
  {
  }

  /** What a widget shows once mounted, for every configuration and controller. */
  lemma RenderAfterMount<P, V>(cfg: Config<P, V>, controllerProps: P)
    ensures Render(cfg, Mount(cfg, controllerProps, Initial())) ==
      RenderPhase(cfg, MountPhase(cfg, controllerProps))
  {
  }

  /** Without a view the widget renders nothing and the controller is never
      consulted: any other controller gives the same state. */
  lemma NoViewIgnoresController<P, V>(cfg: Config<P, V>, controllerProps: P, other: P -> Outcome<V>, s: State<V>)
    requires cfg.view.None?
    ensures Mount(cfg, controllerProps, s) == Mount(cfg.(controller := other), controllerProps, s)
    ensures Render(cfg, Mount(cfg, controllerProps, Initial())) == Nothing
  {
  }

  /** A null or undefined result renders nothing even when pending and error
      views are configured. */
  lemma NullishRendersNothing<P, V>(cfg: Config<P, V>, controllerProps: P)
    requires cfg.view.Some? && cfg.controller(controllerProps).Nullish?
    ensures Render(cfg, Mount(cfg, controllerProps, Initial())) == Nothing
  {
  }

  /** A failure, from the controller or from any single property, renders the
      error view when configured and nothing otherwise, never the pending view. */
  lemma FailureRendersErrorView<P, V>(cfg: Config<P, V>, controllerProps: P)
    requires cfg.view.Some?
    requires cfg.controller(controllerProps).Throws? ||
             (cfg.controller(controllerProps).Yields? && PropertyBag.SomeRejects(cfg.controller(controllerProps).bag))
    ensures Render(cfg, Mount(cfg, controllerProps, Initial())) ==
      (if cfg.errorView.Some? then ErrorViewOut(cfg.errorView.value) else Nothing)
  {
  }

  /** When every property settles, the view is shown in a container tagged
      with the widget's name, its element built with exactly the settled bag. */
  lemma ResolvedRendersView<P, V>(cfg: Config<P, V>, controllerProps: P)
    requires cfg.view.Some? && cfg.controller(controllerProps).Yields?
    requires !PropertyBag.SomeRejects(cfg.controller(controllerProps).bag)
    ensures Render(cfg, Mount(cfg, controllerProps, Initial())) ==
      Tagged(cfg.name, cfg.view.value, PropertyBag.ResolveAll(cfg.controller(controllerProps).bag).values)
  {
  }
}

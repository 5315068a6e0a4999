/**
 The fetch-then-render widget: its state record, the transition performed
 once when it is mounted, and the selection of what it renders.

 The asynchronous controller call and the settling of its property bag are
 abstracted into one `Outcome`, so mounting is a single atomic transition.
 The controller itself is a total function from the caller's controller
 properties to such an outcome.
 */
module Widget {
  import opened PropertyBag

  /** A presentational component, identified by name. */
  type ViewId = string

  /** What awaiting the controller call produces. */
  datatype Outcome<V> =
    | Throws                                  // the call throws or its promise rejects
    | Nullish                                 // it yields null or undefined
    | Yields(bag: map<string, Settle<V>>)     // it yields a bag of properties

  /** The widget's configuration; `P` is the type of the controller's argument. */
  datatype Config<!P, V> = Config(
    name: string,
    controller: P -> Outcome<V>,
    view: Option<ViewId>,
    errorView: Option<ViewId>,
    pendingView: Option<ViewId>)

  datatype Option<+T> = None | Some(value: T)

  /** The component state: three flags and the bag handed to the view. */
  datatype State<V> = State(
    isPromised: bool,
    result: map<string, V>,
    isError: bool,
    showNothing: bool)

  /** What `render` returns. */
  datatype Output<V> =
    | Nothing                                                   // null
    | ErrorViewOut(errorView: ViewId)                           // the error view, without properties
    | Tagged(name: string, view: ViewId, props: map<string, V>)  // the view in a container tagged with the name
    | PendingViewOut(pendingView: ViewId)                       // the pending view, without properties
    | UndefinedElement                                          // an element whose type is undefined

  /** The state a freshly constructed widget starts in. */
  function Initial<V>(): (s: State<V>)
    ensures !s.isPromised && !s.isError && !s.showNothing
    ensures s.result == map[]
  {
    State(false, map[], false, false)
  }

  /** The state after `componentDidMount` has run to completion from `s`.
      Every branch copies `s` and overwrites only the fields it names. */
  function Mount<P, V>(cfg: Config<P, V>, controllerProps: P, s: State<V>): (r: State<V>)
    // no view: render nothing, without calling the controller
    ensures cfg.view.None? ==>
      r.showNothing && !r.isPromised && r.isError == s.isError && r.result == s.result
    // the controller yields null or undefined: only showNothing changes
    ensures cfg.view.Some? && cfg.controller(controllerProps).Nullish? ==>
      r.showNothing && r.isPromised == s.isPromised && r.isError == s.isError && r.result == s.result
    // every property resolves: the view gets exactly the settled bag
    ensures cfg.view.Some? && cfg.controller(controllerProps).Yields? &&
            !SomeRejects(cfg.controller(controllerProps).bag) ==>
      var bag := cfg.controller(controllerProps).bag;
      && r.isPromised && r.isError == s.isError && r.showNothing == s.showNothing
      && r.result.Keys == bag.Keys
      && (forall k :: k in bag ==> r.result[k] == bag[k].value)
    // the controller fails or some property rejects: no partial result
    ensures cfg.view.Some? &&
            (cfg.controller(controllerProps).Throws? ||
             (cfg.controller(controllerProps).Yields? && SomeRejects(cfg.controller(controllerProps).bag))) ==>
      r.isError && !r.isPromised && r.showNothing == s.showNothing && r.result == s.result
  {
    if cfg.view.Some? then
      match cfg.controller(controllerProps)
      case Throws => s.(isError := true, isPromised := false)
      case Nullish => s.(showNothing := true)
      case Yields(bag) =>
        match ResolveAll(bag)
        case Rejected => s.(isError := true, isPromised := false)
        case Resolved(values) => s.(result := values, isPromised := true)
    else
      s.(showNothing := true, isPromised := false)
  }

  /** The priority cascade of `render`: an error with an error view, then
      showNothing, then isPromised, then the pending view, else nothing. */
  function Render<P, V>(cfg: Config<P, V>, s: State<V>): (r: Output<V>)
    ensures r.ErrorViewOut? <==> s.isError && cfg.errorView.Some?
    ensures r.ErrorViewOut? ==> r.errorView == cfg.errorView.value
    ensures r.Nothing? <==>
      !(s.isError && cfg.errorView.Some?) &&
      (s.showNothing || (!s.isPromised && (s.isError || cfg.pendingView.None?)))
    ensures r.Tagged? <==>
      !(s.isError && cfg.errorView.Some?) && !s.showNothing && s.isPromised && cfg.view.Some?
    ensures r.Tagged? ==> r.name == cfg.name && r.view == cfg.view.value && r.props == s.result
    ensures r.UndefinedElement? <==>
      !(s.isError && cfg.errorView.Some?) && !s.showNothing && s.isPromised && cfg.view.None?
    ensures r.PendingViewOut? <==>
      cfg.pendingView.Some? && !s.isError && !s.showNothing && !s.isPromised
    ensures r.PendingViewOut? ==> r.pendingView == cfg.pendingView.value
  {
    if s.isError && cfg.errorView.Some? then
      ErrorViewOut(cfg.errorView.value)
    else if s.showNothing then
      Nothing
    else if s.isPromised then
      match cfg.view
      case Some(v) => Tagged(cfg.name, v, s.result)
      case None => UndefinedElement
    else if cfg.pendingView.Some? && !s.isPromised && !s.isError then
      PendingViewOut(cfg.pendingView.value)
    else
      Nothing
  }
}

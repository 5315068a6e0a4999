/**
 `createWidget`: from a configuration, a function from controller
 properties to an element, namely the widget wrapped in an error boundary
 carrying the widget's name. Also how one render pass of such an element
 combines the widget's selection with the boundary's latch.
 */
module Factory {
  import opened Widget
  import opened ErrorBoundary

  /** The element `createWidget(config)(controllerProps)` stands for. */
  datatype Element<!P, V> = Element(boundary: Boundary, config: Config<P, V>, controllerProps: P)

  /** Each call of the returned function builds an independent element: a fresh
      boundary named after the widget around the widget, with the controller
      properties forwarded unchanged. */
  function CreateWidget<P(!new), V>(cfg: Config<P, V>): (make: P -> Element<P, V>)
    ensures forall p :: make(p).boundary == Fresh(cfg.name)
    ensures forall p :: make(p).config == cfg && make(p).controllerProps == p
  {
    p => Element(Fresh(cfg.name), cfg, p)
  }

  /** Whether rendering an output throws, given the views whose own render
      throws. An element whose type is undefined always throws. A view here
      throws for every set of properties or for none: a view that fails only
      on some bags is not expressible. */
  predicate Throws<V>(out: Output<V>, failing: set<ViewId>)
  {
    match out
    case Nothing => false
    case ErrorViewOut(v) => v in failing
    case Tagged(_, v, _) => v in failing
    case PendingViewOut(v) => v in failing
    case UndefinedElement => true
  }

  /** One render pass of an element whose widget is in state `s`. */
  function Frame<P, V>(e: Element<P, V>, s: State<V>, failing: set<ViewId>): (r: (Boundary, Fragment<Output<V>>))
    ensures r.0.name == e.boundary.name
    ensures r.1.Children? <==> !e.boundary.err && !Throws(Render(e.config, s), failing)
    ensures r.1.Children? ==> r.1.out == Render(e.config, s)
    ensures r.0.err <==> e.boundary.err || Throws(Render(e.config, s), failing)
  {
    var out := Render(e.config, s);
    Step(e.boundary, if Throws(out, failing) then Threw else Rendered(out))
  }

  /** A view that throws while rendering the settled bag is contained: the
      boundary latches and shows an empty fragment. */
  lemma RenderFailureContained<P(!new), V>(cfg: Config<P, V>, p: P, failing: set<ViewId>)
    requires cfg.view.Some? && cfg.view.value in failing
    requires Mount(cfg, p, Initial()).isPromised
    ensures Frame(CreateWidget(cfg)(p), Mount(cfg, p, Initial()), failing) ==
      (Boundary(cfg.name, true), EmptyFragment)
  {
  }
}

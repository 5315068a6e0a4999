/**
 The error boundary placed around every widget: a two-state latch. While no
 error has been caught it renders its children; once a render of the
 children throws, it records the error and renders an empty fragment from
 then on. Nothing ever clears the latch.
 */
module ErrorBoundary {

  datatype Boundary = Boundary(name: string, err: bool)

  /** What rendering the children produces, when the boundary lets them render. */
  datatype ChildRender<T> = Rendered(out: T) | Threw

  /** What the boundary itself renders. */
  datatype Fragment<T> = EmptyFragment | Children(out: T)

  /** A boundary as constructed: no error caught yet. */
  function Fresh(name: string): (b: Boundary)
    ensures b.name == name && !b.err
  {
    Boundary(name, false)
  }

  /** One render pass: a latched boundary renders an empty fragment; otherwise
      a throwing child is caught, which latches the boundary. */
  function Step<T>(b: Boundary, child: ChildRender<T>): (r: (Boundary, Fragment<T>))
    ensures r.0.name == b.name
    ensures r.0.err <==> b.err || child.Threw?
    ensures r.1.Children? <==> !b.err && child.Rendered?
    ensures r.1.Children? ==> r.1.out == child.out
  {
    if b.err then (b, EmptyFragment)
    else
      match child
      case Threw => (b.(err := true), EmptyFragment)
      case Rendered(out) => (b, Children(out))
  }

  /** A sequence of render passes: the final boundary and what each pass showed. */
  function Run<T>(b: Boundary, trace: seq<ChildRender<T>>): (r: (Boundary, seq<Fragment<T>>))
    ensures |r.1| == |trace|
    ensures r.0.name == b.name
    ensures r.0.err <==> b.err || exists i :: 0 <= i < |trace| && trace[i].Threw?
    ensures forall i :: 0 <= i < |trace| ==>
      (r.1[i].Children? <==> !b.err && forall j :: 0 <= j <= i ==> trace[j].Rendered?)
    ensures forall i :: 0 <= i < |trace| && r.1[i].Children? ==> r.1[i].out == trace[i].out
    decreases |trace|
  {
    if |trace| == 0 then (b, [])
    else
      var (b1, shown) := Step(b, trace[0]);
      var (b2, rest) := Run(b1, trace[1..]);
      (b2, [shown] + rest)
  }

  /** The latch never resets: a boundary that has caught an error stays latched
      and shows only empty fragments, whatever its children would do. */
  lemma LatchHolds<T>(b: Boundary, trace: seq<ChildRender<T>>)
    requires b.err
    ensures Run(b, trace).0 == b
    ensures forall i :: 0 <= i < |trace| ==> Run(b, trace).1[i] == EmptyFragment
  {
  }

  /** Once a render throws, every later pass shows an empty fragment. */
  lemma AfterCatchOnlyEmpty<T>(name: string, trace: seq<ChildRender<T>>, i: nat, j: nat)
    requires i <= j < |trace| && trace[i].Threw?
    ensures Run(Fresh(name), trace).1[j] == EmptyFragment
    ensures Run(Fresh(name), trace).0.err
  {
  }
}

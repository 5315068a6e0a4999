/**
 Two concrete widgets: a profile whose bag mixes a plain value with a
 promise, and one whose controller rejects.
 */
module Scenarios {
  import opened PropertyBag
  import opened Widget

  datatype Json = Num(n: int) | Str(s: string)

  function ProfileBag(): map<string, Settle<Json>>
  {
    map["id" := Plain(Num(1)), "bio" := Fulfils(Str("hi"))]
  }

  function Profile(): Config<(), Json>
  {
    Config("profile", _ => Yields(ProfileBag()), Some("ProfileView"), None, None)
  }

  /** The profile view's element is built with `id` and the settled `bio`, and
      nothing else. */
  lemma ProfileShowsSettledBag()
    ensures Render(Profile(), Mount(Profile(), (), Initial())) ==
      Tagged("profile", "ProfileView", map["id" := Num(1), "bio" := Str("hi")])
  {
  }

  /** With a view configured, a rejecting controller and an error view show
      the error view. */
  lemma RejectingControllerShowsErrorView()
    ensures Render(Profile().(controller := _ => Throws, errorView := Some("ErrView")),
                   Mount(Profile().(controller := _ => Throws, errorView := Some("ErrView")), (), Initial()))
      == ErrorViewOut("ErrView")
  {
  }

  /** The same rejecting controller and error view, but no view: the controller
      is never called and the widget renders nothing, not the error view. */
  lemma RejectingControllerWithoutViewShowsNothing()
    ensures Render(Profile().(view := None, controller := _ => Throws, errorView := Some("ErrView")),
                   Mount(Profile().(view := None, controller := _ => Throws, errorView := Some("ErrView")), (), Initial()))
      == Nothing
  {
  }

  /** Without a view, a configured pending view is still shown before the
      mount; only the mount switches the widget to showing nothing. */
  lemma NoViewShowsPendingBeforeMount()
    ensures Render(Profile().(view := None, pendingView := Some("Spinner")), Initial<Json>())
      == PendingViewOut("Spinner")
    ensures Render(Profile().(view := None, pendingView := Some("Spinner")),
                   Mount(Profile().(view := None, pendingView := Some("Spinner")), (), Initial()))
      == Nothing
  {
  }
}

/** Values the pages hand to their collaborators instead of calling them:
    the toast they show and the route they navigate to. */
module Feedback {

  datatype Option<+T> = None | Some(value: T)

  /** The two toast styles the pages use; a toast without a variant is `Default`. */
  datatype Variant = Default | Destructive

  /** One call of `toast({ title, description, variant })`. */
  datatype Toast = Toast(title: string, description: string, variant: Variant)

  /** A `navigate(route)` scheduled through `setTimeout` after `delayMs` milliseconds. */
  datatype Navigation = Navigation(route: string, delayMs: nat)
}

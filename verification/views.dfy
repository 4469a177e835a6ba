/** What the status-bar widgets can observe of a platform `View`. */
module Views {

  /** `View.VISIBLE`, `View.INVISIBLE` and `View.GONE`. The controllers only
      ever push `Visible` or `Gone`; `Invisible` is a state a view may have
      been given by its layout before it was registered. */
  datatype Visibility = Visible | Invisible | Gone
}

/** What the scroll container reports, and what a user can do. */
module Events {
  import opened Js
  import opened ScrollMetrics

  /** The two DOM events logged: `scroll` while the position changes and
      `scrollend` once it settles. */
  datatype Kind = Scroll | ScrollEnd

  /** One input to the logger: a scroll event, with the container's geometry
      when it is read (absent when there is no container element), or a
      click on the Clear button. Each scroll event also brings the fresh id
      and the formatted time its log entry is stamped with. */
  datatype Event =
    | Scrolled(kind: Kind, id: string, timestamp: string, scroller: Option<Geometry>)
    | ClearClicked
}

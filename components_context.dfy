/** Which demo components are shown: a map from component title to flag,
    toggled one title at a time, with a request to navigate home when a
    component is switched on away from the home page. */
module ComponentsContext {

  /** The flag of `title`, with a missing entry read as off
      (`!!active[title]`). */
  predicate IsOn(active: map<string, bool>, title: string) {
    title in active && active[title]
  }

  /** `{...active, [title]: !active[title]}`: the one entry negated, every
      other entry kept. */
  function Flip(active: map<string, bool>, title: string): (r: map<string, bool>)
    ensures title in r && r[title] == !IsOn(active, title)
    ensures r.Keys == active.Keys + {title}
    ensures forall k :: k in active && k != title ==> r[k] == active[k]
  {
    active[title := !IsOn(active, title)]
  }

  /** Flipping the same title twice restores every flag, and restores the
      map itself when the title had an entry. */
  lemma {:induction false} FlipTwice(active: map<string, bool>, title: string)
    ensures forall k :: IsOn(Flip(Flip(active, title), title), k) == IsOn(active, k)
    ensures title in active ==> Flip(Flip(active, title), title) == active
  {
    var twice := Flip(Flip(active, title), title);
    assert twice[title] == IsOn(active, title);
    if title in active {
      assert twice.Keys == active.Keys;
      assert forall k :: k in active ==> twice[k] == active[k];
    }
  }

  /** The provider of the active-component map; `pathname` is the route
      the router is on. */
  class ComponentsProvider {
    var active: map<string, bool>
    const pathname: string

    /** Nothing is active at first. */
    constructor (pathname: string)
      ensures active == map[] && this.pathname == pathname
    {
      active := map[];
      this.pathname := pathname;
    }

    /** `toggleComponent`: flip the title's flag; navigation to `/` is
        requested exactly when the flag is now on and the route is not
        already `/`. */
    method Toggle(title: string) returns (navigate: bool)
      modifies this
      ensures active == Flip(old(active), title)
      ensures navigate <==> IsOn(active, title) && pathname != "/"
    {
      active := Flip(active, title);
      navigate := active[title] && pathname != "/";
    }
  }
}

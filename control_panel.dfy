/** The floating control panel: one checkbox row per component title, in
    the given order, whose change flips that title in the active map. */
module ControlPanel {
  import opened ComponentsContext

  datatype Row = Row(title: string, checked: bool)

  /** The rows, in title order; a row is checked exactly when its title
      is on. */
  function Rows(titles: seq<string>, active: map<string, bool>): (rows: seq<Row>)
    ensures |rows| == |titles|
    ensures forall i :: 0 <= i < |titles| ==> rows[i].title == titles[i]
    ensures forall i :: 0 <= i < |titles| ==> (rows[i].checked <==> IsOn(active, titles[i]))
  {
    seq(|titles|, i requires 0 <= i < |titles| => Row(titles[i], IsOn(active, titles[i])))
  }

  /** Changing row `k` (the map handed to the setter is
      `Flip(active, titles[k])`) negates that row's checkbox and leaves
      every row with another title as it was. */
  lemma ChangeRow(titles: seq<string>, active: map<string, bool>, k: nat)
    requires k < |titles|
    ensures Rows(titles, Flip(active, titles[k]))[k].checked == !Rows(titles, active)[k].checked
    ensures forall i :: 0 <= i < |titles| && titles[i] != titles[k] ==>
              Rows(titles, Flip(active, titles[k]))[i] == Rows(titles, active)[i]
  {
  }
}

/**
 * The Tips section (`Tips`): the translated sections are numbered and laid
 * out in two columns, the left one taking the larger half. The rendered
 * rich text of a description is not modelled; a section keeps the
 * translation key it is rendered from.
 */
module Tips {
  import opened Text

  /** One entry of the translated `sections` list. */
  datatype Section = Section(title: string, description: string)

  /** A section ready to render. */
  datatype TipSection = TipSection(id: string, title: string, descriptionKey: string)

  const IdPrefix := "tip-section-"

  function SectionId(i: nat): string {
    IdPrefix + NatToString(i)
  }

  /** `sections.map((section, index) => ...)`. */
  function Process(sections: seq<Section>): (r: seq<TipSection>)
    ensures |r| == |sections|
    ensures forall i :: 0 <= i < |r| ==>
      r[i].id == SectionId(i) && r[i].title == sections[i].title &&
      r[i].descriptionKey == "sections." + NatToString(i) + ".description"
  {
    seq(|sections|, i requires 0 <= i < |sections| =>
      TipSection(SectionId(i), sections[i].title, "sections." + NatToString(i) + ".description"))
  }

  /** Different positions get different ids, so the render keys are unique. */
  lemma SectionIdsDistinct(i: nat, j: nat)
    requires i != j
    ensures SectionId(i) != SectionId(j)
  {
    if SectionId(i) == SectionId(j) {
      assert SectionId(i)[|IdPrefix|..] == NatToString(i);
      assert SectionId(j)[|IdPrefix|..] == NatToString(j);
      NatToStringInjective(i, j);
    }
  }

  /** `Math.ceil(n / 2)`. */
  function MidPoint(n: nat): (m: nat)
    ensures 2 * m == n || 2 * m == n + 1
  {
    (n + 1) / 2
  }

  /** `slice(0, midPoint)` and `slice(midPoint)`. */
  function Columns<T>(items: seq<T>): (r: (seq<T>, seq<T>))
    ensures r.0 + r.1 == items
    ensures |r.0| == |r.1| || |r.0| == |r.1| + 1
    ensures r.0 == items[..MidPoint(|items|)]
  {
    var mid := MidPoint(|items|);
    assert items[..mid] + items[mid..] == items;
    (items[..mid], items[mid..])
  }

  /**
   * The right column continues the numbering of the left one: its `k`-th tip
   * is section `midPoint + k`, and every section lands in exactly one column.
   */
  lemma ColumnsKeepOrder(sections: seq<Section>, k: nat)
    requires k < |sections|
    ensures var (left, right) := Columns(Process(sections));
      var mid := MidPoint(|sections|);
      (k < mid ==> left[k].id == SectionId(k) && left[k].title == sections[k].title) &&
      (k >= mid ==> right[k - mid].id == SectionId(k) && right[k - mid].title == sections[k].title)
  {
    var (left, right) := Columns(Process(sections));
    var mid := MidPoint(|sections|);
    if k >= mid {
      assert right == Process(sections)[mid..];
    }
  }
}

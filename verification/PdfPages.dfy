/** The link list that the first writer lays out. */
module PdfPages {
  import opened Pagination

  datatype LinkStep = LinkStep(number: nat, title: string, url: string, access: string)
  datatype Phase = Phase(title: string, steps: seq<LinkStep>)

  datatype Item = PhaseItem(title: string) | StepItem(step: LinkStep)

  type PlacedItem = Placed<Item>

  function Height(item: Item): Extent {
    if item.PhaseItem? then 38 else 34
  }

  // ---- Flattening

  function StepItems(steps: seq<LinkStep>): seq<Item> {
    seq(|steps|, i requires 0 <= i < |steps| => StepItem(steps[i]))
  }

  function Flatten(data: seq<Phase>): seq<Item> {
    if data == [] then []
    else Flatten(data[..|data| - 1]) + [PhaseItem(data[|data| - 1].title)] + StepItems(data[|data| - 1].steps)
  }

  method FlattenItems(data: seq<Phase>) returns (items: seq<Item>)
    ensures items == Flatten(data)
  {
    items := [];
    for i := 0 to |data|
      invariant items == Flatten(data[..i])
    {
      var p := data[i];
      ghost var before := items + [PhaseItem(p.title)];
      items := items + [PhaseItem(p.title)];
      for j := 0 to |p.steps|
        invariant items == before + StepItems(p.steps[..j])
      {
        items := items + [StepItem(p.steps[j])];
        assert StepItems(p.steps[..j + 1]) == StepItems(p.steps[..j]) + [StepItem(p.steps[j])];
      }
      assert p.steps[..|p.steps|] == p.steps;
      assert data[..i + 1][..i] == data[..i];
    }
    assert data[..|data|] == data;
  }

  /** A page starts at 730; the next item stands 38 below a phase header and 34 below a step. */
  lemma NextItemIsBelow(page: seq<Item>, i: nat)
    requires i < |page|
    ensures Place(Height, page)[0].y == 730
    ensures i + 1 < |page| ==>
              Place(Height, page)[i + 1].y == Place(Height, page)[i].y - (match page[i]
                                                                          case PhaseItem(_) => 38
                                                                          case StepItem(_) => 34)
  {
    if i + 1 < |page| {
      assert page[..i + 1][..i] == page[..i];
    }
  }
}

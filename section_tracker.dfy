/**
 * The geometry side of the portfolio's active-section tracker: the page
 * layout as the browser reports it, and the first-match lookup that decides
 * which section contains a vertical position.
 */
module SectionTracker {
  import opened Wrappers

  type SectionId = string

  /** The vertical extent of a rendered section, `[offsetTop, offsetTop + offsetHeight)`. */
  datatype Box = Box(offsetTop: int, offsetHeight: int)

  /**
   * The live page layout: the box of every element that is present, keyed by
   * its id. An id that is not a key has no element in the document.
   */
  type Layout = map<SectionId, Box>

  /** Pixels added to the scroll offset to make up for the fixed navigation bar. */
  const NavOffset: int := 100

  /** The sections the tracker examines, in the order it examines them. */
  const Sections: seq<SectionId> := ["home", "about", "projects", "contact"]

  /** `document.getElementById(id)`, reduced to the element's box. */
  function GetElementById(layout: Layout, id: SectionId): Option<Box>
  {
    if id in layout then Some(layout[id]) else None
  }

  /** The half-open containment test of the scroll handler. */
  predicate Contains(b: Box, pos: int)
  {
    pos >= b.offsetTop && pos < b.offsetTop + b.offsetHeight
  }

  /** The section `id` has an element and its box contains `pos`. */
  predicate Matches(layout: Layout, id: SectionId, pos: int)
  {
    match GetElementById(layout, id)
    case None => false
    case Some(b) => Contains(b, pos)
  }

  /** Every id in the list is different from every other. */
  predicate Distinct(ids: seq<SectionId>)
  {
    forall a, b :: 0 <= a < b < |ids| ==> ids[a] != ids[b]
  }

  /** `ids[k]` matches `pos` and no earlier id does: the lookup stops at `k`. */
  ghost predicate FirstMatchAt(ids: seq<SectionId>, layout: Layout, pos: int, k: int)
  {
    0 <= k < |ids| && Matches(layout, ids[k], pos) &&
    forall j :: 0 <= j < k ==> !Matches(layout, ids[j], pos)
  }

  /**
   * The first id of `ids`, in order, whose element exists and contains `pos`;
   * `None` when there is no such id.
   */
  function FirstMatch(ids: seq<SectionId>, layout: Layout, pos: int): (r: Option<SectionId>)
    ensures r.Some? ==> r.value in ids && Matches(layout, r.value, pos)
    ensures r.None? <==> forall j :: 0 <= j < |ids| ==> !Matches(layout, ids[j], pos)
  {
    if ids == [] then None
    else if Matches(layout, ids[0], pos) then Some(ids[0])
    else FirstMatch(ids[1..], layout, pos)
  }

  /** When the lookup stops at `k`, it returns `ids[k]`. */
  lemma {:induction false} FirstMatchAtIsChosen(ids: seq<SectionId>, layout: Layout, pos: int, k: int)
    requires FirstMatchAt(ids, layout, pos, k)
    ensures FirstMatch(ids, layout, pos) == Some(ids[k])
  {
    if k > 0 {
      assert !Matches(layout, ids[0], pos);
      forall j | 0 <= j < k - 1 ensures !Matches(layout, ids[1..][j], pos) {
        assert ids[1..][j] == ids[j + 1];
      }
      FirstMatchAtIsChosen(ids[1..], layout, pos, k - 1);
    }
  }

  /** Conversely, whatever the lookup returns is the id at a position where it stops. */
  lemma {:induction false} ChosenIsFirstMatchAt(ids: seq<SectionId>, layout: Layout, pos: int)
    requires FirstMatch(ids, layout, pos).Some?
    ensures exists k :: FirstMatchAt(ids, layout, pos, k) && ids[k] == FirstMatch(ids, layout, pos).value
  {
    if Matches(layout, ids[0], pos) {
      assert FirstMatchAt(ids, layout, pos, 0);
    } else {
      ChosenIsFirstMatchAt(ids[1..], layout, pos);
      var k :| FirstMatchAt(ids[1..], layout, pos, k) && ids[1..][k] == FirstMatch(ids[1..], layout, pos).value;
      forall j | 0 <= j < k + 1 ensures !Matches(layout, ids[j], pos) {
        if j > 0 { assert ids[j] == ids[1..][j - 1]; }
      }
      assert FirstMatchAt(ids, layout, pos, k + 1);
    }
  }

  /**
   * First match, not best match: once an id matches, no later id of a
   * list of distinct ids is chosen, however its range overlaps.
   */
  lemma EarlierMatchShadowsLater(ids: seq<SectionId>, layout: Layout, pos: int, j: int, k: int)
    requires Distinct(ids)
    requires 0 <= j < k < |ids|
    requires Matches(layout, ids[j], pos)
    ensures FirstMatch(ids, layout, pos) != Some(ids[k])
  {
    ChosenIsFirstMatchAt(ids, layout, pos);
    var m :| FirstMatchAt(ids, layout, pos, m) && ids[m] == FirstMatch(ids, layout, pos).value;
    assert m <= j;
    assert ids[m] != ids[k];
  }

  /**
   * Containment is half-open: a section's own top matches it and its bottom
   * edge `offsetTop + offsetHeight` does not.
   */
  lemma HalfOpenBoundaries(ids: seq<SectionId>, layout: Layout, k: int)
    requires 0 <= k < |ids| && ids[k] in layout && layout[ids[k]].offsetHeight > 0
    requires forall j :: 0 <= j < k ==> !Matches(layout, ids[j], layout[ids[k]].offsetTop)
    ensures FirstMatch(ids, layout, layout[ids[k]].offsetTop) == Some(ids[k])
    ensures FirstMatch(ids, layout, layout[ids[k]].offsetTop + layout[ids[k]].offsetHeight) != Some(ids[k])
  {
    FirstMatchAtIsChosen(ids, layout, layout[ids[k]].offsetTop, k);
  }
}

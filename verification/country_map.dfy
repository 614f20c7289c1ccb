/** The geometry of the country map's focus: the bounding box of the focused
    shape is scaled about its centre, by 1.5 when a county is focused and 1
    otherwise. Numbers are exact reals; floating-point rounding is not
    modelled. */
module CountryMap {
  import opened Wrappers

  /** An SVG bounding box: top-left corner and size. */
  datatype Bounds = Bounds(x: real, y: real, width: real, height: real)

  function CentreX(b: Bounds): real { b.x + b.width / 2.0 }
  function CentreY(b: Bounds): real { b.y + b.height / 2.0 }

  /** `resizeBoundsCentered(factor, bounds)`. */
  function ResizeBoundsCentered(factor: real, b: Bounds): (r: Bounds)
    ensures r.width == b.width * factor && r.height == b.height * factor
    ensures CentreX(r) == CentreX(b) && CentreY(r) == CentreY(b)
  {
    var newWidth := b.width * factor;
    var newHeight := b.height * factor;
    Bounds(b.x + (b.width - newWidth) / 2.0, b.y + (b.height - newHeight) / 2.0, newWidth, newHeight)
  }

  /** The box is fixed by its centre and its size, so the resize is the only
      box with the scaled size and the old centre. */
  lemma CentreAndSizeDetermineBox(a: Bounds, b: Bounds)
    requires a.width == b.width && a.height == b.height
    requires CentreX(a) == CentreX(b) && CentreY(a) == CentreY(b)
    ensures a == b
  {
  }

  /** A factor of 1 leaves the box unchanged. */
  lemma ResizeByOne(b: Bounds)
    ensures ResizeBoundsCentered(1.0, b) == b
  {
  }

  /** Resizing twice is resizing once by the product of the factors. */
  lemma ResizeComposes(f: real, g: real, b: Bounds)
    ensures ResizeBoundsCentered(g, ResizeBoundsCentered(f, b)) == ResizeBoundsCentered(f * g, b)
  {
    var once := ResizeBoundsCentered(f * g, b);
    var twice := ResizeBoundsCentered(g, ResizeBoundsCentered(f, b));
    assert twice.width == once.width by {
      assert b.width * f * g == b.width * (f * g);
    }
    assert twice.height == once.height by {
      assert b.height * f * g == b.height * (f * g);
    }
    CentreAndSizeDetermineBox(twice, once);
  }

  /** Resizing by a non-zero factor is undone by its reciprocal. */
  lemma ResizeInverts(f: real, b: Bounds)
    requires f != 0.0
    ensures ResizeBoundsCentered(1.0 / f, ResizeBoundsCentered(f, b)) == b
  {
    ResizeComposes(f, 1.0 / f, b);
    assert f * (1.0 / f) == 1.0;
    ResizeByOne(b);
  }

  /** The `focusOn` property. */
  datatype FocusOn = FocusOn(countyName: Option<string>, stateCode: string)

  /** The zoom: 1.5 when a non-empty county name is focused (the empty
      string is falsy), 1 otherwise. */
  function ZoomFactor(focusOn: Option<FocusOn>): (z: real)
    ensures z == 1.5 <==> focusOn.Some? && focusOn.value.countyName.Some? && focusOn.value.countyName.value != ""
    ensures z == 1.0 || z == 1.5
  {
    if focusOn.Some? && focusOn.value.countyName.Some? && focusOn.value.countyName.value != "" then 1.5 else 1.0
  }

  /** Focusing a county shows a box one and a half times the county's, about
      the same centre; focusing only a state shows the state's box. */
  lemma FocusedView(focusOn: Option<FocusOn>, b: Bounds)
    ensures focusOn.Some? && focusOn.value.countyName.Some? && focusOn.value.countyName.value != "" ==>
              ResizeBoundsCentered(ZoomFactor(focusOn), b).width == b.width * 1.5
    ensures !(focusOn.Some? && focusOn.value.countyName.Some? && focusOn.value.countyName.value != "") ==>
              ResizeBoundsCentered(ZoomFactor(focusOn), b) == b
  {
    ResizeByOne(b);
  }
}

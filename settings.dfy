/**
 * The five slider-driven adjustments of the preview. `FilterSettings` is
 * the mutable holder the editor's controls write into; `Adjustments` is
 * the value the preview pipeline reads from it.
 */
module Settings {

  datatype Adjustments = Adjustments(brightness: int, blur: int, contrast: real, scale: int, grayscale: bool)

  /** The neutral settings: no offset, no blur, unit gain, full size, colour. */
  const Defaults := Adjustments(0, 0, 1.0, 100, false)

  /** The ranges the editor's sliders allow; the processor itself does not enforce them. */
  predicate InSliderRange(a: Adjustments) {
    -100 <= a.brightness <= 100 && 0 <= a.blur <= 20 &&
    0.5 <= a.contrast <= 3.0 && 10 <= a.scale <= 200
  }

  class FilterSettings {
    var brightness: int
    var blur: int
    var contrast: real
    var scale: int
    var grayscale: bool

    function Value(): Adjustments
      reads this
    {
      Adjustments(brightness, blur, contrast, scale, grayscale)
    }

    constructor ()
      ensures Value() == Defaults && InSliderRange(Value())
    {
      brightness := 0;
      blur := 0;
      contrast := 1.0;
      scale := 100;
      grayscale := false;
    }

    /** Restores exactly the values the constructor sets. */
    method Reset()
      modifies this
      ensures Value() == Defaults && InSliderRange(Value())
    {
      brightness := 0;
      blur := 0;
      contrast := 1.0;
      scale := 100;
      grayscale := false;
    }
  }
}

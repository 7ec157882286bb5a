/** The star widget (components/StarRating.tsx): stars 1 to `count` (10 by default), a
    hover highlight, and clicks forwarded as ratings unless the widget is read-only. */
module StarRating {

  const DefaultCount := 10

  /** `Array.from({ length: count }, (_, i) => i + 1)`. */
  function Stars(count: nat): (r: seq<int>)
    ensures |r| == count
    ensures forall i :: 0 <= i < count ==> r[i] == i + 1
  {
    seq(count, i => i + 1)
  }

  /** `(hoverValue || value) >= starValue`: an unset or zero hover falls back to the
      value. */
  predicate Lit(hoverValue: int, value: int, star: int) {
    (if hoverValue != 0 then hoverValue else value) >= star
  }

  /** Exactly the first `v` stars are lit, where `v` is the hover value if set and the
      value otherwise. */
  lemma LitPrefix(count: nat, hoverValue: int, value: int)
    ensures var shown := if hoverValue != 0 then hoverValue else value;
            forall i :: 0 <= i < count ==> (Lit(hoverValue, value, Stars(count)[i]) <==> i < shown)
  {
  }

  class Widget {
    const readOnly: bool
    const value: int
    /** `hoverValue`; 0 plays the part of undefined, which has the same truthiness. */
    var hoverValue: int
    /** The `onRate` calls, in order. */
    var rated: seq<int>

    constructor(value: int, readOnly: bool)
      ensures this.value == value && this.readOnly == readOnly
      ensures hoverValue == 0 && rated == []
    {
      this.value := value;
      this.readOnly := readOnly;
      hoverValue := 0;
      rated := [];
    }

    method Click(star: int)
      modifies this
      ensures rated == if readOnly then old(rated) else old(rated) + [star]
      ensures hoverValue == old(hoverValue)
    {
      if !readOnly {
        rated := rated + [star];
      }
    }

    method MouseOver(star: int)
      modifies this
      ensures hoverValue == if readOnly then old(hoverValue) else star
      ensures rated == old(rated)
    {
      if !readOnly {
        hoverValue := star;
      }
    }

    method MouseLeave()
      modifies this
      ensures hoverValue == if readOnly then old(hoverValue) else 0
      ensures rated == old(rated)
    {
      if !readOnly {
        hoverValue := 0;
      }
    }

    predicate StarLit(star: int)
      reads this
    {
      Lit(hoverValue, value, star)
    }
  }

  /** The lit state of stars 1..count as the widget renders them. */
  function Rendered(hoverValue: int, value: int, count: nat): (r: seq<bool>)
    ensures |r| == count
    ensures forall i :: 0 <= i < count ==> r[i] == Lit(hoverValue, value, Stars(count)[i])
  {
    seq(count, i requires 0 <= i < count => Lit(hoverValue, value, Stars(count)[i]))
  }

  /** Hovering over star k of a widget that takes input lights exactly stars 1..k;
      leaving lights exactly the stars up to the value again. The two renders are
      returned. */
  method HoverThenLeave(w: Widget, k: int, count: nat) returns (hovered: seq<bool>, left: seq<bool>)
    requires !w.readOnly && k != 0
    modifies w
    ensures |hovered| == count && |left| == count
    ensures forall i :: 0 <= i < count ==> (hovered[i] <==> i < k)
    ensures forall i :: 0 <= i < count ==> (left[i] <==> i < w.value)
    ensures w.hoverValue == 0 && w.rated == old(w.rated)
  {
    w.MouseOver(k);
    hovered := Rendered(w.hoverValue, w.value, count);
    LitPrefix(count, w.hoverValue, w.value);
    w.MouseLeave();
    left := Rendered(w.hoverValue, w.value, count);
    LitPrefix(count, w.hoverValue, w.value);
  }
}

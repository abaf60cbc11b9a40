/**
 * `Positionable`: a component that may leave the flow layout and be placed by
 * left, top, right and bottom coordinates. The interface states its behaviour
 * in its documentation only; `Positionable` below is a reference class that
 * keeps exactly that documented state.
 */
module PositionableComponent {
  import opened JavaInt

  /** Marks an integer parameter as not defined: `Integer.MAX_VALUE`. */
  const UNDEFINED: Int32 := INT_MAX

  /** The positioning rules: `FLOW`, `ABSOLUTE`, `RELATIVE` and `FIXED`. */
  datatype Positioning = Flow | Absolute | Relative | Fixed

  const STYLE_BOTTOM := "bottom"
  const STYLE_LEFT := "left"
  const STYLE_POSITIONING := "positioning"
  const STYLE_RIGHT := "right"
  const STYLE_TOP := "top"
  /** The property-change name fired when any positioning element changes. */
  const POSITION_CHANGED_PROPERTY := "position"

  datatype Side = Left | Top | Right | Bottom

  const ALL_SIDES: set<Side> := {Left, Top, Right, Bottom}

  /** A coordinate of `Integer.MAX_VALUE` or `Integer.MIN_VALUE` is not taken into account. */
  predicate IsEffective(coordinate: Int32) {
    coordinate != INT_MAX && coordinate != INT_MIN
  }

  /** `UNDEFINED` is `Integer.MAX_VALUE`, so an undefined coordinate never takes effect. */
  lemma UndefinedNotEffective()
    ensures UNDEFINED == 0x7FFF_FFFF
    ensures !IsEffective(UNDEFINED)
  {
  }

  /** The enumeration has exactly the four cases. */
  lemma PositioningCases(p: Positioning)
    ensures p == Flow || p == Absolute || p == Relative || p == Fixed
  {
  }

  /** The five style keys are pairwise distinct. */
  lemma StyleKeysDistinct()
    ensures |{STYLE_BOTTOM, STYLE_LEFT, STYLE_POSITIONING, STYLE_RIGHT, STYLE_TOP}| == 5
  {
  }

  class Positionable {
    var left: Int32
    var top: Int32
    var right: Int32
    var bottom: Int32
    var positioning: Positioning

    /** By default a component flows with its siblings and has every coordinate undefined. */
    constructor ()
      ensures GetPositioning() == Flow
      ensures GetLeft() == UNDEFINED && GetTop() == UNDEFINED
      ensures GetRight() == UNDEFINED && GetBottom() == UNDEFINED
      ensures EffectiveSides() == {}
    {
      left, top, right, bottom := UNDEFINED, UNDEFINED, UNDEFINED, UNDEFINED;
      positioning := Flow;
    }

    /** `getBottom`: the bottom coordinate, which takes effect unless it is a sentinel. */
    function GetBottom(): (r: Int32)
      reads this
      ensures r == Coordinate(Bottom)
      ensures IsEffective(r) <==> Bottom in EffectiveSides()
    {
      bottom
    }

    /** `getLeft`: the left coordinate, which takes effect unless it is a sentinel. */
    function GetLeft(): (r: Int32)
      reads this
      ensures r == Coordinate(Left)
      ensures IsEffective(r) <==> Left in EffectiveSides()
    {
      left
    }

    /** `getPositioning`: the rule last set by the constructor or `SetPositioning`. */
    function GetPositioning(): (r: Positioning)
      reads this
      ensures r == positioning
    {
      positioning
    }

    /** `getRight`: the right coordinate, which takes effect unless it is a sentinel. */
    function GetRight(): (r: Int32)
      reads this
      ensures r == Coordinate(Right)
      ensures IsEffective(r) <==> Right in EffectiveSides()
    {
      right
    }

    /** `getTop`: the top coordinate, which takes effect unless it is a sentinel. */
    function GetTop(): (r: Int32)
      reads this
      ensures r == Coordinate(Top)
      ensures IsEffective(r) <==> Top in EffectiveSides()
    {
      top
    }


    function Coordinate(side: Side): Int32
      reads this
    {
      match side
      case Left => left
      case Top => top
      case Right => right
      case Bottom => bottom
    }

    /** The sides whose coordinate is taken into account when positioning. */
    function EffectiveSides(): (sides: set<Side>)
      reads this
      ensures forall side :: side in sides <==> IsEffective(Coordinate(side))
    {
      set side | side in ALL_SIDES && IsEffective(Coordinate(side))
    }

    /**
     * `clearPositioning`: every coordinate becomes `Integer.MAX_VALUE`, so no
     * side takes effect and the component is placed as in the flow layout.
     * What becomes of the positioning rule is not promised.
     */
    method ClearPositioning()
      modifies this
      ensures GetLeft() == UNDEFINED && GetTop() == UNDEFINED
      ensures GetRight() == UNDEFINED && GetBottom() == UNDEFINED
      ensures EffectiveSides() == {}
    {
      left, top, right, bottom := UNDEFINED, UNDEFINED, UNDEFINED, UNDEFINED;
    }

    method SetBottom(newValue: Int32)
      modifies this
      ensures GetBottom() == newValue
      ensures GetLeft() == old(GetLeft()) && GetTop() == old(GetTop()) && GetRight() == old(GetRight())
      ensures GetPositioning() == old(GetPositioning())
    {
      bottom := newValue;
    }

    method SetLeft(newValue: Int32)
      modifies this
      ensures GetLeft() == newValue
      ensures GetTop() == old(GetTop()) && GetRight() == old(GetRight()) && GetBottom() == old(GetBottom())
      ensures GetPositioning() == old(GetPositioning())
    {
      left := newValue;
    }

    method SetPositioning(newPositioning: Positioning)
      modifies this
      ensures GetPositioning() == newPositioning
      ensures GetLeft() == old(GetLeft()) && GetTop() == old(GetTop())
      ensures GetRight() == old(GetRight()) && GetBottom() == old(GetBottom())
    {
      positioning := newPositioning;
    }

    method SetRight(newValue: Int32)
      modifies this
      ensures GetRight() == newValue
      ensures GetLeft() == old(GetLeft()) && GetTop() == old(GetTop()) && GetBottom() == old(GetBottom())
      ensures GetPositioning() == old(GetPositioning())
    {
      right := newValue;
    }

    method SetTop(newValue: Int32)
      modifies this
      ensures GetTop() == newValue
      ensures GetLeft() == old(GetLeft()) && GetRight() == old(GetRight()) && GetBottom() == old(GetBottom())
      ensures GetPositioning() == old(GetPositioning())
    {
      top := newValue;
    }
  }
}

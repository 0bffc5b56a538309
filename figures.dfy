/** The geometric figures of the object-oriented laboratory work: a
    rectangle with a width, a height and a colour, and a square, which is a
    rectangle whose width and height both equal its side. The objects are
    never updated after construction, so each one is a value. */
module LabPythonOop {

  /** A rectangle stores its width, its height and its colour; a square
      stores its side and its colour, and its width and height are the side
      it hands to the rectangle constructor. The colour is kept as an opaque
      string. */
  datatype Figure =
    | Rectangle(width: int, height: int, color: string)
    | Square(side: int, color: string)

  /** The `width` and `height` attributes: a square's are its side. */
  function Width(f: Figure): int {
    match f
    case Rectangle(w, _, _) => w
    case Square(s, _) => s
  }

  function Height(f: Figure): int {
    match f
    case Rectangle(_, h, _) => h
    case Square(s, _) => s
  }

  /** The class-level figure names. */
  const RectangleType: string := "Прямоугольник"
  const SquareType: string := "Квадрат"

  /** `Rectangle(width, height, color)`. */
  function NewRectangle(width: int, height: int, color: string): (f: Figure)
    ensures f.Rectangle?
    ensures Width(f) == width && Height(f) == height && f.color == color
  {
    Rectangle(width, height, color)
  }

  /** `Square(side, color)`: stores the side, then delegates to the rectangle
      constructor with the side as both width and height. */
  function NewSquare(side: int, color: string): (f: Figure)
    ensures f.Square?
    ensures f.side == side && Width(f) == side && Height(f) == side
    ensures f.color == color
  {
    Square(side, color)
  }

  /** `get_figure_type()`: each class answers with its own name, the square
      overriding the rectangle's. */
  function FigureType(f: Figure): (t: string)
    ensures t == RectangleType <==> f.Rectangle?
    ensures t == SquareType <==> f.Square?
  {
    match f
    case Rectangle(_, _, _) => RectangleType
    case Square(_, _) => SquareType
  }

  /** `square()`, the area, which both classes compute from the width and
      the height; on a square, whose width and height are its side, the
      inherited method gives the side squared. */
  function Area(f: Figure): (a: int)
    ensures f.Square? ==> a == f.side * f.side
  {
    Width(f) * Height(f)
  }

  /** The area of a rectangle is the product of the dimensions it was built
      with. */
  lemma RectangleArea(width: int, height: int, color: string)
    ensures Area(NewRectangle(width, height, color)) == width * height
  {
  }

  /** The inherited area of a square is its side squared, the area of the
      rectangle with that side as both dimensions. */
  lemma SquareArea(side: int, color: string)
    ensures Area(NewSquare(side, color)) == side * side
    ensures Area(NewSquare(side, color)) == Area(NewRectangle(side, side, color))
  {
  }

  /** A square reports its own type, never the rectangle's, whatever its
      side and colour. */
  lemma SquareTypeOverrides(side: int, color: string)
    ensures FigureType(NewSquare(side, color)) == SquareType
    ensures FigureType(NewSquare(side, color)) != FigureType(NewRectangle(side, side, color))
  {
  }
}

/** The colour of a graph point: a given colour, or one picked from the palette by index. */
module GraphPointColor {
  import opened Wrappers
  import opened PyValues

  // ---------------------------------------------------------------------
  // Colour
  // ---------------------------------------------------------------------

  const ColorIndexMessage: string := "graphpoint colorindex must be numeric."

  /** The remainder of a natural number, by repeated subtraction. */
  function NatMod(a: nat, n: int): (r: nat)
    requires n > 0
    ensures r < n
  {
    if a < n then a else NatMod(a - n, n)
  }

  /**
   * Python's `a % n` for a positive `n`: the member of [0, n) that differs
   * from `a` by a multiple of `n`, negative `a` included.
   */
  function PyMod(a: int, n: int): (r: int)
    requires n > 0
    ensures 0 <= r < n
  {
    if a >= 0 then NatMod(a, n)
    else
      var m := NatMod(-a, n);
      if m == 0 then 0 else n - m
  }

  lemma {:induction false} MulAtLeast(k: int, n: int)
    requires k >= 1 && n > 0
    ensures k * n >= n
  {
    if k > 1 {
      MulAtLeast(k - 1, n);
      assert k * n == (k - 1) * n + n;
    }
  }

  /** Dafny's remainder is the unique `r` in [0, n) with `a == q * n + r`. */
  lemma ModUnique(a: int, n: int, q: int, r: int)
    requires n > 0 && 0 <= r < n && a == q * n + r
    ensures a % n == r
  {
    var q0, r0 := a / n, a % n;
    assert a == q0 * n + r0;
    if q0 < q {
      MulAtLeast(q - q0, n);
    } else if q0 > q {
      MulAtLeast(q0 - q, n);
    }
  }

  lemma {:induction false} NatModIsEuclidean(a: nat, n: int)
    requires n > 0
    ensures NatMod(a, n) == a % n
  {
    if a < n {
      ModUnique(a, n, 0, a);
    } else {
      NatModIsEuclidean(a - n, n);
      var q := (a - n) / n;
      assert a - n == q * n + (a - n) % n;
      ModUnique(a, n, q + 1, (a - n) % n);
    }
  }

  /** For a positive divisor Python's `%` and Dafny's Euclidean `%` agree. */
  lemma PyModIsEuclidean(a: int, n: int)
    requires n > 0
    ensures PyMod(a, n) == a % n
  {
    if a >= 0 {
      NatModIsEuclidean(a, n);
    } else {
      NatModIsEuclidean(-a, n);
      var q, m := (-a) / n, (-a) % n;
      assert -a == q * n + m;
      if m == 0 {
        ModUnique(a, n, -q, 0);
      } else {
        ModUnique(a, n, -q - 1, n - m);
      }
    }
  }

  /** Indices one palette length apart pick the same slot; in-range indices pick themselves. */
  lemma PyModWraps(a: int, n: int)
    requires n > 0
    ensures PyMod(a + n, n) == PyMod(a, n)
    ensures 0 <= a < n ==> PyMod(a, n) == a
    ensures PyMod(-1, n) == n - 1
  {
    PyModIsEuclidean(a + n, n);
    PyModIsEuclidean(a, n);
    PyModIsEuclidean(-1, n);
    assert a + n == (a / n + 1) * n + a % n;
    ModUnique(a + n, n, a / n + 1, a % n);
    ModUnique(-1, n, -1, n - 1);
  }

  /**
   * The colour a truthy `colorindex` selects: `palette[int(ci) % len(palette)]`
   * with leading '#' removed. `int()` failing is reported as a ValueError;
   * an empty palette lets Python's ZeroDivisionError through.
   */
  function PaletteColor(colorindex: Value, palette: seq<string>): Result<string, Error> {
    match PythonInt(colorindex)
    case None => Failure(ValueError(ColorIndexMessage))
    case Some(i) => if palette == [] then Failure(ZeroDivisionError) else Success(LStrip(palette[PyMod(i, |palette|)], '#'))
  }

  /** The three outcomes of a colour index: not a number, an empty palette, or the entry at its slot. */
  lemma PaletteColorCases(colorindex: Value, palette: seq<string>)
    ensures var r := PaletteColor(colorindex, palette);
            && (PythonInt(colorindex).None? ==> r == Failure(ValueError(ColorIndexMessage)))
            && (PythonInt(colorindex).Some? && palette == [] ==> r == Failure(ZeroDivisionError))
            && (r.Success? ==> palette != [] && PythonInt(colorindex).Some?)
            && (r.Success? ==> r.value == LStrip(palette[PyMod(PythonInt(colorindex).value, |palette|)], '#'))
  {
  }

  /** Every numeric index, however large or negative, lands on a palette entry. */
  lemma PaletteColorTotal(i: int, palette: seq<string>)
    requires palette != []
    ensures PaletteColor(IntVal(i), palette).Success?
    ensures exists k :: 0 <= k < |palette| && PaletteColor(IntVal(i), palette).value == LStrip(palette[k], '#')
  {
    var slot := PyMod(i, |palette|);
    assert PaletteColor(IntVal(i), palette) == Success(LStrip(palette[slot], '#'));
  }

  /** A number selects the palette entry at its slot. */
  lemma PaletteColorAt(i: int, palette: seq<string>)
    requires palette != []
    ensures PaletteColor(IntVal(i), palette) == Success(LStrip(palette[PyMod(i, |palette|)], '#'))
  {
    assert PythonInt(IntVal(i)) == Some(i);
  }

  /** Indices that land on the same slot select the same colour. */
  lemma PaletteColorSameSlot(a: int, b: int, palette: seq<string>)
    requires palette != [] && PyMod(a, |palette|) == PyMod(b, |palette|)
    ensures PaletteColor(IntVal(a), palette) == PaletteColor(IntVal(b), palette)
  {
    PaletteColorAt(a, palette);
    PaletteColorAt(b, palette);
  }

  /** Indices one palette length apart select the same colour. */
  lemma PaletteColorPeriodic(i: int, palette: seq<string>)
    requires palette != []
    ensures PaletteColor(IntVal(i + |palette|), palette) == PaletteColor(IntVal(i), palette)
  {
    PyModWraps(i, |palette|);
    PaletteColorSameSlot(i + |palette|, i, palette);
  }

  /** Colour indices that `int()` maps to the same number select the same colour. */
  lemma PaletteColorSameInt(a: Value, b: Value, palette: seq<string>)
    requires PythonInt(a) == PythonInt(b)
    ensures PaletteColor(a, palette) == PaletteColor(b, palette)
  {
  }

  /** A colorindex given as the decimal string of a number selects what the number does. */
  lemma PaletteColorOfString(i: int, palette: seq<string>)
    ensures PaletteColor(StrVal(IntToString(i)), palette) == PaletteColor(IntVal(i), palette)
  {
    PythonIntOfString(i);
    PaletteColorSameInt(StrVal(IntToString(i)), IntVal(i), palette);
  }

  /**
   * `self.color = color; if color: self.color = Color(color)`, as `str()`
   * later renders it. `made` is what `str(Color(color))` gives, or the error
   * the host's Color class raises for this colour.
   */
  function GivenColor(color: Value, made: Result<string, Error>): (r: Result<Option<string>, Error>)
    ensures color == NoneVal ==> r == Success(None)
    ensures color != NoneVal && !Truthy(color) ==> r == Success(Some(Render(color)))
    ensures Truthy(color) && made.Success? ==> r == Success(Some(made.value))
    ensures Truthy(color) && made.Failure? ==> r == Failure(made.error)
  {
    if color == NoneVal then Success(None)
    else if !Truthy(color) then Success(Some(Render(color)))
    else match made
      case Success(c) => Success(Some(c))
      case Failure(e) => Failure(e)
  }
}

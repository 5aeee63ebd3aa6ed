/** The per-player colours of the reveal cards and the voting tiles: player
    number `n` (counted from 1) gets entry `(n - 1) % 8` of an eight-colour
    palette, with JavaScript's `%` and out-of-range indexing. */
module Palette {
  import opened Js

  /** The class names of the card and voting-tile backgrounds. */
  const CardColors: seq<string> :=
    ["bg-red-700", "bg-purple-700", "bg-blue-700", "bg-teal-700",
     "bg-rose-700", "bg-indigo-700", "bg-amber-700", "bg-emerald-700"]

  /** The front colours of the simple card. */
  const FrontColors: seq<string> :=
    ["#b91c1c", "#7e22ce", "#1d4ed8", "#0f766e", "#e11d48", "#4338ca", "#b45309", "#047857"]

  /** `colors[(n - 1) % colors.length]`: the colour of player `n`, which is
      `undefined` when the JavaScript remainder is negative. */
  function PlayerColor(colors: seq<string>, n: int): (c: Option<string>)
    requires |colors| > 0
    ensures n >= 1 ==> c == Some(colors[(n - 1) % |colors|])
    ensures n < 1 ==> (c.Some? <==> (1 - n) % |colors| == 0)
    ensures n < 1 && c.Some? ==> c.value == colors[0]
  {
    At(colors, Rem(n - 1, |colors|))
  }

  /** The colours of an eight-colour palette repeat every eight players. */
  lemma PlayerColorPeriodic(colors: seq<string>, n: int)
    requires |colors| == 8 && n >= 1
    ensures PlayerColor(colors, n + 8) == PlayerColor(colors, n)
  {
  }

  lemma CardColorsDistinct()
    ensures |CardColors| == 8 && NoDuplicates(CardColors)
  {
    assert CardColors[0][3] == 'r' && CardColors[1][3] == 'p' && CardColors[2][3] == 'b';
    assert CardColors[3][3] == 't' && CardColors[4][4] == 'o' && CardColors[5][3] == 'i';
    assert CardColors[6][3] == 'a' && CardColors[7][3] == 'e';
  }

  lemma FrontColorsDistinct()
    ensures |FrontColors| == 8 && NoDuplicates(FrontColors)
  {
    assert FrontColors[0][1..3] == "b9" && FrontColors[1][1..3] == "7e" && FrontColors[2][1..3] == "1d";
    assert FrontColors[3][1..3] == "0f" && FrontColors[4][1..3] == "e1" && FrontColors[5][1..3] == "43";
    assert FrontColors[6][1..3] == "b4" && FrontColors[7][1..3] == "04";
  }

  /** With eight distinct colours, any eight consecutive players get
      pairwise different colours; in particular neighbours never share one. */
  lemma DistinctWithinPalette(colors: seq<string>, a: int, b: int)
    requires |colors| == 8 && NoDuplicates(colors)
    requires 1 <= a < b < a + 8
    ensures PlayerColor(colors, a) != PlayerColor(colors, b)
  {
    var i, j := (a - 1) % 8, (b - 1) % 8;
    assert i != j;
    if i < j {
      assert colors[i] != colors[j];
    } else {
      assert colors[j] != colors[i];
    }
  }
}

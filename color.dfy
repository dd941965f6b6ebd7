/** gitfu/core/color.py: the two ANSI colour codes and `colorize`. */
module Color {
  import opened Text

  /** The members of `AnsiColor`; there is no YELLOW. */
  datatype AnsiColor = RESET | RED

  /** `AnsiColor.X.value` */
  function Value(c: AnsiColor): string {
    match c
    case RESET => "[0m"
    case RED => "[91m"
  }

  /** `AnsiColor.<name>`: attribute lookup on the enum; `None` is an AttributeError. */
  function Attr(name: string): (c: Option<AnsiColor>)
    ensures c.Some? <==> name == "RESET" || name == "RED"
  {
    if name == "RESET" then Some(RESET) else if name == "RED" then Some(RED) else None
  }

  const Esc: char := '\U{1B}'

  /** `colorize(text, color)`: ESC, the colour code, the text, ESC, the reset code. */
  function Colorize(text: string, c: AnsiColor): (r: string)
    ensures |r| == |text| + |Value(c)| + 5
    ensures StartsWith(r, [Esc] + Value(c)) && EndsWith(r, [Esc] + Value(RESET))
  {
    [Esc] + Value(c) + text + [Esc] + Value(RESET)
  }

  /** Takes the fixed prefix and suffix off a coloured text. */
  function Uncolor(s: string, c: AnsiColor): string
    requires |s| >= |Value(c)| + 5
  {
    s[1 + |Value(c)|..|s| - 4]
  }

  /** `colorize` can be undone, so it never maps two texts to the same output. */
  lemma UncolorColorize(text: string, c: AnsiColor)
    ensures Uncolor(Colorize(text, c), c) == text
  {
    var r := Colorize(text, c);
    assert r == ([Esc] + Value(c)) + text + ([Esc] + Value(RESET));
    assert r[1 + |Value(c)|..|r| - 4] == text;
  }

  lemma ColorizeInjective(t1: string, t2: string, c: AnsiColor)
    requires Colorize(t1, c) == Colorize(t2, c)
    ensures t1 == t2
  {
    UncolorColorize(t1, c);
    UncolorColorize(t2, c);
  }

  /** `color.AnsiColor.YELLOW` does not exist: looking it up raises AttributeError. */
  lemma NoYellow()
    ensures Attr("YELLOW").None?
  {
  }
}

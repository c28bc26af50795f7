/** Line-protocol tag escaping, written twice in the repository, with different replacement orders. */
module TagEscape {

  /** `str.replace` of a single character. */
  function Replace(s: string, c: char, sub: string): string {
    if s == "" then "" else (if s[0] == c then sub else [s[0]]) + Replace(s[1..], c, sub)
  }

  /** The native agent: backslash, space, comma, equals sign. */
  function AgentEscape(value: string): string {
    Replace(Replace(Replace(Replace(value, '\\', "\\\\"), ' ', "\\ "), ',', "\\,"), '=', "\\=")
  }

  /** The BGP collector: backslash, comma, space, equals sign. */
  function CollectorEscape(value: string): string {
    Replace(Replace(Replace(Replace(value, '\\', "\\\\"), ',', "\\,"), ' ', "\\ "), '=', "\\=")
  }

  predicate Special(c: char) { c == ' ' || c == ',' || c == '=' }

  /** One pass: a backslash before every backslash and every special character. */
  function Escape(value: string): string {
    if value == "" then ""
    else (if Special(value[0]) || value[0] == '\\' then ['\\', value[0]] else [value[0]]) + Escape(value[1..])
  }

  function Unescape(s: string): string {
    if s == "" then ""
    else if s[0] == '\\' && |s| > 1 then [s[1]] + Unescape(s[2..])
    else [s[0]] + Unescape(s[1..])
  }

  /** Read left to right, every special character follows a backslash and no backslash dangles. */
  predicate NoneBare(s: string) {
    s == ""
    || (if s[0] == '\\' then |s| > 1 && NoneBare(s[2..]) else !Special(s[0]) && NoneBare(s[1..]))
  }

  lemma {:induction false} ReplaceConcat(a: string, b: string, c: char, sub: string)
    ensures Replace(a + b, c, sub) == Replace(a, c, sub) + Replace(b, c, sub)
  {
    if a == "" {
      assert a + b == b;
    } else {
      ReplaceConcat(a[1..], b, c, sub);
      assert (a + b)[1..] == a[1..] + b;
      var head := if a[0] == c then sub else [a[0]];
      assert Replace(a + b, c, sub) == head + Replace(a[1..] + b, c, sub);
      assert head + (Replace(a[1..], c, sub) + Replace(b, c, sub)) == (head + Replace(a[1..], c, sub)) + Replace(b, c, sub);
    }
  }

  lemma ReplaceOne(x: char, c: char, sub: string)
    ensures Replace([x], c, sub) == if x == c then sub else [x]
  {
    assert [x][1..] == "";
  }

  lemma ReplaceTwo(x: char, y: char, c: char, sub: string)
    ensures Replace([x, y], c, sub) == (if x == c then sub else [x]) + (if y == c then sub else [y])
  {
    assert [x, y] == [x] + [y];
    ReplaceConcat([x], [y], c, sub);
    ReplaceOne(x, c, sub);
    ReplaceOne(y, c, sub);
  }

  /** Backslashes first, then two characters in either order, then equals signs. */
  function Chain(value: string, second: char, third: char): string {
    Replace(Replace(Replace(Replace(value, '\\', "\\\\"), second, ['\\', second]), third, ['\\', third]), '=', "\\=")
  }

  lemma ChainConcat(a: string, b: string, second: char, third: char)
    ensures Chain(a + b, second, third) == Chain(a, second, third) + Chain(b, second, third)
  {
    hide Replace;
    ReplaceConcat(a, b, '\\', "\\\\");
    var a1, b1 := Replace(a, '\\', "\\\\"), Replace(b, '\\', "\\\\");
    ReplaceConcat(a1, b1, second, ['\\', second]);
    var a2, b2 := Replace(a1, second, ['\\', second]), Replace(b1, second, ['\\', second]);
    ReplaceConcat(a2, b2, third, ['\\', third]);
    ReplaceConcat(Replace(a2, third, ['\\', third]), Replace(b2, third, ['\\', third]), '=', "\\=");
  }

  lemma ChainOne(x: char, second: char, third: char)
    requires (second == ' ' && third == ',') || (second == ',' && third == ' ')
    ensures Chain([x], second, third) == if Special(x) || x == '\\' then ['\\', x] else [x]
  {
    hide Replace;
    ReplaceOne(x, '\\', "\\\\");
    ReplaceOne(x, second, ['\\', second]);
    ReplaceOne(x, third, ['\\', third]);
    ReplaceOne(x, '=', "\\=");
    ReplaceTwo('\\', x, second, ['\\', second]);
    ReplaceTwo('\\', x, third, ['\\', third]);
    ReplaceTwo('\\', x, '=', "\\=");
    assert "\\\\" == ['\\', '\\'] && "\\=" == ['\\', '='];
    assert ['\\'] + [x] == ['\\', x];
  }

  /** Four replacements in a row act on each character separately. */
  lemma {:induction false} ChainIsOnePass(value: string, second: char, third: char)
    requires (second == ' ' && third == ',') || (second == ',' && third == ' ')
    ensures Chain(value, second, third) == Escape(value)
  {
    if value == "" {
    } else {
      ChainIsOnePass(value[1..], second, third);
      assert value == [value[0]] + value[1..];
      ChainConcat([value[0]], value[1..], second, third);
      ChainOne(value[0], second, third);
    }
  }

  /** Both programs compute the one-pass escape, so they agree on every string. */
  lemma BothAreOnePass(value: string)
    ensures AgentEscape(value) == Escape(value)
    ensures CollectorEscape(value) == AgentEscape(value)
  {
    ChainIsOnePass(value, ' ', ',');
    ChainIsOnePass(value, ',', ' ');
    assert "\\ " == ['\\', ' '] && "\\," == ['\\', ','];
  }

  /** The escape can be undone, so different values never collide, and leaves nothing bare. */
  lemma {:induction false} EscapeIsReversible(value: string)
    ensures Unescape(Escape(value)) == value
    ensures NoneBare(Escape(value))
  {
    if value != "" {
      EscapeIsReversible(value[1..]);
      var e, x := Escape(value), value[0];
      if Special(x) || x == '\\' {
        assert e[2..] == Escape(value[1..]);
      } else {
        assert e[1..] == Escape(value[1..]);
      }
    }
  }

  /** A text without special characters stays as it is. */
  lemma {:induction false} PlainIsKept(value: string)
    requires forall c :: c in value ==> !Special(c) && c != '\\'
    ensures Escape(value) == value
  {
    if value != "" {
      assert forall c :: c in value[1..] ==> c in value;
      PlainIsKept(value[1..]);
      assert value == [value[0]] + value[1..];
    }
  }
}

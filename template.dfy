/**
 * Escaping of dynamic text before it is embedded in a task description.
 *
 * The crew framework fills `{name}` placeholders in descriptions from the
 * kickoff inputs. `_escape_template_tokens` doubles every brace so that text
 * coming from requirements, agent output or error messages can never form a
 * placeholder. `Render` states the template convention this targets: `{{`
 * and `}}` stand for literal braces and `{name}` is looked up.
 */
module Template {
  import opened Base
  import opened Text

  /** `s.replace(c, with)` for a one-character pattern. */
  function ReplaceChar(s: string, c: char, with: string): string
  {
    if s == [] then [] else (if s[0] == c then with else [s[0]]) + ReplaceChar(s[1..], c, with)
  }

  /** `_escape_template_tokens(text)`: `text.replace("{", "{{").replace("}", "}}")`. */
  function Escape(text: string): string
  {
    ReplaceChar(ReplaceChar(text, '{', "{{"), '}', "}}")
  }

  predicate IsBrace(c: char) { c == '{' || c == '}' }

  /** `s` contains no brace at all. */
  predicate BraceFree(s: string) { forall i :: 0 <= i < |s| ==> !IsBrace(s[i]) }

  /** Brace-freedom from the absence of either brace character. */
  lemma NoBraceCharacter(s: string)
    requires '{' !in s && '}' !in s
    ensures BraceFree(s)
  {
  }

  lemma BraceFreeConcat(a: string, b: string)
    requires BraceFree(a) && BraceFree(b)
    ensures BraceFree(a + b)
  {
    assert forall i :: 0 <= i < |a + b| ==> (a + b)[i] == if i < |a| then a[i] else b[i - |a|];
  }

  /** Number of braces in `s`. */
  function BraceCount(s: string): nat
  {
    if s == [] then 0 else (if IsBrace(s[0]) then 1 else 0) + BraceCount(s[1..])
  }

  /** The escape of one character: a brace is doubled, anything else kept. */
  function EscapeChar(c: char): string
  {
    if IsBrace(c) then [c, c] else [c]
  }

  /** Reference definition of the escape: character by character. */
  function Doubled(s: string): string
  {
    if s == [] then [] else EscapeChar(s[0]) + Doubled(s[1..])
  }

  /** Every brace of `t` belongs to a doubled pair `{{` or `}}`. */
  predicate WellEscaped(t: string)
    decreases |t|
  {
    if t == [] then true
    else if IsBrace(t[0]) then |t| >= 2 && t[1] == t[0] && WellEscaped(t[2..])
    else WellEscaped(t[1..])
  }

  /** Collapse each doubled brace to a single one. */
  function Unescape(t: string): string
    decreases |t|
  {
    if t == [] then []
    else if IsBrace(t[0]) && |t| >= 2 && t[1] == t[0] then [t[0]] + Unescape(t[2..])
    else [t[0]] + Unescape(t[1..])
  }

  // ---------------------------------------------------------------------------
  // The two passes of the source are the character-wise doubling
  // ---------------------------------------------------------------------------

  lemma {:induction false} ReplaceCharConcat(a: string, b: string, c: char, with: string)
    ensures ReplaceChar(a + b, c, with) == ReplaceChar(a, c, with) + ReplaceChar(b, c, with)
  {
    if a != [] {
      assert (a + b)[1..] == a[1..] + b;
      ReplaceCharConcat(a[1..], b, c, with);
    } else {
      assert a + b == b;
    }
  }

  lemma {:induction false} DoubledConcat(a: string, b: string)
    ensures Doubled(a + b) == Doubled(a) + Doubled(b)
  {
    if a != [] {
      assert (a + b)[1..] == a[1..] + b;
      DoubledConcat(a[1..], b);
    } else {
      assert a + b == b;
    }
  }

  /** The source's two `replace` passes double each brace in place. */
  lemma {:induction false} EscapeIsDoubled(s: string)
    ensures Escape(s) == Doubled(s)
  {
    if s != [] {
      var first := ReplaceChar([s[0]], '{', "{{");
      ReplaceCharConcat([s[0]], s[1..], '{', "{{");
      assert [s[0]] + s[1..] == s;
      ReplaceCharConcat(first, ReplaceChar(s[1..], '{', "{{"), '}', "}}");
      EscapeIsDoubled(s[1..]);
      if s[0] == '{' {
        assert first == "{{";
        assert ReplaceChar(first, '}', "}}") == "{{" by {
          assert first[1..][1..] == [];
        }
      } else {
        assert first == [s[0]];
        assert ReplaceChar(first, '}', "}}") == EscapeChar(s[0]) by {
          assert first[1..] == [];
        }
      }
    }
  }

  // ---------------------------------------------------------------------------
  // Properties of the escape
  // ---------------------------------------------------------------------------

  /** The escape adds exactly one character per brace. */
  lemma {:induction false} EscapeLength(s: string)
    ensures |Escape(s)| == |s| + BraceCount(s)
  {
    EscapeIsDoubled(s);
    DoubledLength(s);
  }

  lemma {:induction false} DoubledLength(s: string)
    ensures |Doubled(s)| == |s| + BraceCount(s)
  {
    if s != [] { DoubledLength(s[1..]); }
  }

  /** Every brace of the escaped text is part of a doubled pair. */
  lemma {:induction false} EscapeWellEscaped(s: string)
    ensures WellEscaped(Escape(s))
  {
    EscapeIsDoubled(s);
    DoubledWellEscaped(s);
  }

  lemma {:induction false} DoubledWellEscaped(s: string)
    ensures WellEscaped(Doubled(s))
  {
    if s != [] {
      DoubledWellEscaped(s[1..]);
      var t := Doubled(s);
      if IsBrace(s[0]) {
        assert t[2..] == Doubled(s[1..]);
      } else {
        assert t[1..] == Doubled(s[1..]);
      }
    }
  }

  /** Collapsing the doubled braces gives the original text back. */
  lemma {:induction false} UnescapeEscape(s: string)
    ensures Unescape(Escape(s)) == s
  {
    EscapeIsDoubled(s);
    UnescapeDoubled(s);
  }

  lemma {:induction false} UnescapeDoubled(s: string)
    ensures Unescape(Doubled(s)) == s
  {
    if s != [] {
      UnescapeDoubled(s[1..]);
      var t := Doubled(s);
      if IsBrace(s[0]) {
        assert t[2..] == Doubled(s[1..]);
      } else {
        assert t[1..] == Doubled(s[1..]);
      }
      assert s == [s[0]] + s[1..];
    }
  }

  /** Conversely every well-escaped text is the escape of its collapse. */
  lemma {:induction false} EscapeUnescape(t: string)
    requires WellEscaped(t)
    ensures Escape(Unescape(t)) == t
    decreases |t|
  {
    EscapeIsDoubled(Unescape(t));
    DoubledUnescape(t);
  }

  lemma {:induction false} DoubledUnescape(t: string)
    requires WellEscaped(t)
    ensures Doubled(Unescape(t)) == t
    decreases |t|
  {
    if t != [] {
      var u := Unescape(t);
      if IsBrace(t[0]) {
        DoubledUnescape(t[2..]);
        assert u == [t[0]] + Unescape(t[2..]);
        assert u[1..] == Unescape(t[2..]);
        assert t == [t[0], t[0]] + t[2..];
      } else {
        DoubledUnescape(t[1..]);
        assert u[1..] == Unescape(t[1..]);
        assert t == [t[0]] + t[1..];
      }
    }
  }

  /** The escape leaves brace-free text alone. */
  lemma {:induction false} EscapeBraceFree(s: string)
    requires BraceFree(s)
    ensures Escape(s) == s
  {
    EscapeIsDoubled(s);
    DoubledBraceFree(s);
  }

  lemma {:induction false} DoubledBraceFree(s: string)
    requires BraceFree(s)
    ensures Doubled(s) == s
  {
    if s != [] {
      DoubledBraceFree(s[1..]);
      assert s == [s[0]] + s[1..];
    }
  }

  /** The escape of a concatenation is the concatenation of the escapes. */
  lemma EscapeConcat(a: string, b: string)
    ensures Escape(a + b) == Escape(a) + Escape(b)
  {
    EscapeIsDoubled(a + b);
    EscapeIsDoubled(a);
    EscapeIsDoubled(b);
    DoubledConcat(a, b);
  }

  /** Each element escaped (`[escape(e) for e in errors]`). */
  function EscapeAll(xs: seq<string>): (r: seq<string>)
    ensures |r| == |xs|
    ensures forall i :: 0 <= i < |xs| ==> r[i] == Escape(xs[i])
  {
    if xs == [] then [] else [Escape(xs[0])] + EscapeAll(xs[1..])
  }

  /** Joining escaped items with a brace-free separator escapes the join. */
  lemma {:induction false} EscapeJoin(xs: seq<string>, sep: string)
    requires BraceFree(sep)
    ensures Join(EscapeAll(xs), sep) == Escape(Join(xs, sep))
  {
    if |xs| == 0 {
      assert Escape("") == "";
    } else if |xs| > 1 {
      EscapeJoin(xs[1..], sep);
      assert EscapeAll(xs)[1..] == EscapeAll(xs[1..]);
      EscapeConcat(xs[0] + sep, Join(xs[1..], sep));
      EscapeConcat(xs[0], sep);
      EscapeBraceFree(sep);
    }
  }

  // ---------------------------------------------------------------------------
  // Rendering a description against the kickoff inputs
  // ---------------------------------------------------------------------------

  /** `prefix + r` when rendering succeeded. */
  function Prepend(prefix: string, r: Option<string>): Option<string>
  {
    match r
    case None => None
    case Some(v) => Some(prefix + v)
  }

  /** Index of the first `c` in `s`, or -1 (`str.find`). */
  function IndexOf(s: string, c: char): (i: int)
    ensures -1 <= i < |s|
    ensures i >= 0 ==> s[i] == c
    ensures forall j :: 0 <= j < |s| && (i < 0 || j < i) ==> s[j] != c
  {
    if |s| == 0 then -1
    else if s[0] == c then 0
    else var k := IndexOf(s[1..], c); if k < 0 then -1 else k + 1
  }

  /**
   * Format-string rendering: `{{` and `}}` give a literal brace, `{name}`
   * gives the input named `name`; an unknown name or an unmatched brace is an
   * interpolation error (None).
   */
  function Render(t: string, vars: map<string, string>): Option<string>
    decreases |t|
  {
    if t == [] then Some([])
    else if IsBrace(t[0]) && |t| >= 2 && t[1] == t[0] then Prepend([t[0]], Render(t[2..], vars))
    else if t[0] == '}' then None
    else if t[0] == '{' then
      var k := IndexOf(t[1..], '}');
      if k < 0 then None
      else
        var name := t[1..k + 1];
        if '{' in name || name !in vars then None
        else Prepend(vars[name], Render(t[k + 2..], vars))
    else Prepend([t[0]], Render(t[1..], vars))
  }

  lemma PrependConcat(a: string, b: string, r: Option<string>)
    ensures Prepend(a, Prepend(b, r)) == Prepend(a + b, r)
  {
    if r.Some? { assert a + (b + r.value) == (a + b) + r.value; }
  }

  /** A doubled brace renders as one literal brace. */
  lemma RenderPair(c: char, u: string, vars: map<string, string>)
    requires IsBrace(c)
    ensures Render([c, c] + u, vars) == Prepend([c], Render(u, vars))
  {
    var t := [c, c] + u;
    assert t[0] == c && t[1] == c && t[2..] == u;
  }

  /** Any other character renders as itself. */
  lemma RenderPlain(c: char, u: string, vars: map<string, string>)
    requires !IsBrace(c)
    ensures Render([c] + u, vars) == Prepend([c], Render(u, vars))
  {
    var t := [c] + u;
    assert t[0] == c && t[1..] == u;
  }

  /** The escape of one character renders back to that character. */
  lemma RenderEscapeChar(c: char, u: string, vars: map<string, string>)
    ensures Render(EscapeChar(c) + u, vars) == Prepend([c], Render(u, vars))
  {
    if IsBrace(c) {
      RenderPair(c, u, vars);
    } else {
      RenderPlain(c, u, vars);
    }
  }

  lemma ConcatAssoc(a: string, b: string, c: string)
    ensures (a + b) + c == a + (b + c)
  {
  }

  lemma {:induction false} RenderDoubledPrefix(s: string, rest: string, vars: map<string, string>)
    ensures Render(Doubled(s) + rest, vars) == Prepend(s, Render(rest, vars))
  {
    if s == [] {
      assert Doubled(s) + rest == rest;
      var r := Render(rest, vars);
      if r.Some? { assert s + r.value == r.value; }
    } else {
      var c := s[0];
      var u := Doubled(s[1..]) + rest;
      RenderDoubledPrefix(s[1..], rest, vars);
      RenderEscapeChar(c, u, vars);
      ConcatAssoc(EscapeChar(c), Doubled(s[1..]), rest);
      PrependConcat([c], s[1..], Render(rest, vars));
      assert [c] + s[1..] == s;
    }
  }

  /**
   * Rendering an escaped text followed by anything yields the original text
   * followed by the rendering of the rest, whatever the inputs: no brace
   * from the escaped part opens or closes a placeholder.
   */
  lemma RenderEscapedPrefix(s: string, rest: string, vars: map<string, string>)
    ensures Render(Escape(s) + rest, vars) == Prepend(s, Render(rest, vars))
  {
    EscapeIsDoubled(s);
    RenderDoubledPrefix(s, rest, vars);
  }

  /** An escaped text renders as itself, literally, under every input map. */
  lemma RenderEscaped(s: string, vars: map<string, string>)
    ensures Render(Escape(s), vars) == Some(s)
  {
    RenderEscapedPrefix(s, [], vars);
    assert Escape(s) + [] == Escape(s);
    assert s + [] == s;
  }

  /**
   * Text that looks like a placeholder, such as `{module_name}`, is escaped
   * to `{{module_name}}` and renders as the literal characters.
   */
  lemma PlaceholderTextStaysLiteral(name: string, vars: map<string, string>)
    requires BraceFree(name)
    ensures Escape("{" + name + "}") == "{{" + name + "}}"
    ensures Render(Escape("{" + name + "}"), vars) == Some("{" + name + "}")
  {
    EscapeBraceFree(name);
    assert Escape("{") == "{{" by { EscapeIsDoubled("{"); }
    assert Escape("}") == "}}" by { EscapeIsDoubled("}"); }
    EscapeConcat("{", name);
    EscapeConcat("{" + name, "}");
    RenderEscaped("{" + name + "}", vars);
  }

  /** Text without braces renders as itself in front of whatever follows. */
  lemma RenderBraceFreePrefix(s: string, rest: string, vars: map<string, string>)
    requires BraceFree(s)
    ensures Render(s + rest, vars) == Prepend(s, Render(rest, vars))
  {
    EscapeBraceFree(s);
    RenderEscapedPrefix(s, rest, vars);
  }

  predicate IsIdentifierStart(c: char) { 'a' <= c <= 'z' || 'A' <= c <= 'Z' || c == '_' }

  predicate IsIdentifierChar(c: char) { IsIdentifierStart(c) || '0' <= c <= '9' }

  /**
   * An ASCII identifier: a field `str.format` looks up as a whole, with no
   * conversion, format spec, attribute or index after the name.
   */
  predicate Identifier(s: string)
  {
    |s| > 0 && IsIdentifierStart(s[0]) && forall i :: 1 <= i < |s| ==> IsIdentifierChar(s[i])
  }

  lemma IdentifierBraceFree(s: string)
    requires Identifier(s)
    ensures BraceFree(s)
  {
    assert forall i :: 0 <= i < |s| ==> IsIdentifierChar(s[i]);
  }

  /**
   * A placeholder naming a variable that is not among the inputs makes the
   * whole rendering fail, whatever text comes before or after it.
   */
  lemma RenderUnknownPlaceholder(prefix: string, name: string, rest: string, vars: map<string, string>)
    requires BraceFree(prefix) && Identifier(name) && name !in vars
    ensures Render(prefix + ("{" + name + "}" + rest), vars) == None
  {
    IdentifierBraceFree(name);
    var t := "{" + name + "}" + rest;
    RenderBraceFreePrefix(prefix, t, vars);
    assert t[0] == '{';
    assert t[1..] == name + "}" + rest;
    assert t[1] == name[0] && !IsBrace(t[1]);
    var k := IndexOf(t[1..], '}');
    assert (name + "}" + rest)[|name|] == '}';
    assert forall j :: 0 <= j < |name| ==> (name + "}" + rest)[j] == name[j];
    assert k == |name|;
    assert t[1..k + 1] == name;
  }
}

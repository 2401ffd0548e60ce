/**
 * Python's `str.format()` called with no arguments, which is how every
 * template of the dashboard's translation table is rendered.
 *
 * With no positional and no keyword arguments a replacement field can never
 * be filled: `"{}"` raises IndexError, `"{name}"` raises KeyError, and a lone
 * `{` or `}` raises ValueError. The only braces that survive are the escapes
 * `{{` and `}}`, which stand for one brace each.
 */
module StrFormat {
  import opened Wrappers

  /** The template holds no brace at all. */
  predicate BraceFree(s: string) {
    forall i | 0 <= i < |s| :: s[i] != '{' && s[i] != '}'
  }

  /** The template that formats (with no arguments) to `s`: every brace doubled. */
  function Escape(s: string): (t: string)
    ensures |t| >= |s|
  {
    if s == [] then []
    else if s[0] == '{' || s[0] == '}' then [s[0], s[0]] + Escape(s[1..])
    else [s[0]] + Escape(s[1..])
  }

  /**
   * `template.format()`: `None` stands for the exception Python raises
   * (IndexError, KeyError or ValueError, not told apart here).
   */
  function FormatNoArgs(template: string): (r: Option<string>)
    ensures BraceFree(template) ==> r == Some(template)
    ensures r.Some? ==> Escape(r.value) == template
    ensures r.Some? ==> |r.value| <= |template|
  {
    if template == [] then Some([])
    else if template[0] == '{' || template[0] == '}' then
      if |template| >= 2 && template[1] == template[0] then
        match FormatNoArgs(template[2..])
        case Some(rest) => Some([template[0]] + rest)
        case None => None
      else None
    else
      assert BraceFree(template) ==> BraceFree(template[1..]);
      assert template == [template[0]] + template[1..];
      match FormatNoArgs(template[1..])
      case Some(rest) => Some([template[0]] + rest)
      case None => None
  }

  /** Escaping and then formatting gives back the text: with the second
      ensures of FormatNoArgs, `FormatNoArgs(t) == Some(s)` exactly when `t == Escape(s)`. */
  lemma {:induction false} FormatEscapeRoundTrip(s: string)
    ensures FormatNoArgs(Escape(s)) == Some(s)
  {
    if s != [] {
      FormatEscapeRoundTrip(s[1..]);
      var t := Escape(s);
      if s[0] == '{' || s[0] == '}' {
        assert t[2..] == Escape(s[1..]);
      } else {
        assert t[0] == s[0] && t[1..] == Escape(s[1..]);
      }
      assert s == [s[0]] + s[1..];
    }
  }

  /** A single unmatched brace makes the call raise. */
  lemma LoneBraceRaises(prefix: string, brace: char)
    requires BraceFree(prefix) && (brace == '{' || brace == '}')
    ensures FormatNoArgs(prefix + [brace]) == None
  {
    if prefix != [] {
      assert (prefix + [brace])[1..] == prefix[1..] + [brace];
      LoneBraceRaises(prefix[1..], brace);
    }
  }
}

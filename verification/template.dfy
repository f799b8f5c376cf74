/** Python's `str.format(**fields)`, which fills the debug prompt template. Only
    replacement fields that are plain names are modelled; doubled braces stand
    for literal braces, and a lone brace or an unknown name raises. */
module Templates {
  import opened Outcomes

  /** Position of the first `c` in `s`, if any. */
  function IndexOf(s: string, c: char): (r: Option<nat>)
    ensures r.Some? ==> r.value < |s| && s[r.value] == c && c !in s[..r.value]
    ensures r.None? ==> c !in s
  {
    if s == [] then None
    else if s[0] == c then Some(0)
    else match IndexOf(s[1..], c)
      case None => None
      case Some(k) => assert s[..k + 1] == [s[0]] + s[1..][..k]; Some(k + 1)
  }

  /** Puts `prefix` in front of a formatted text; an exception passes through. */
  function Prepend(prefix: string, r: Outcome<string>): Outcome<string> {
    match r
    case Ok(v) => Ok(prefix + v)
    case Raised(e) => Raised(e)
  }

  /** `t.format(**fields)`. */
  function Format(t: string, fields: map<string, string>): (r: Outcome<string>)
    ensures '{' !in t && '}' !in t ==> r == Ok(t)
    ensures r.Raised? ==> '{' in t || '}' in t
    decreases |t|
  {
    if t == [] then Ok([])
    else if t[0] == '{' then
      if |t| > 1 && t[1] == '{' then Prepend("{", Format(t[2..], fields))
      else match IndexOf(t[1..], '}')
        case None =>
          Raised(if |t| == 1 then "Single '{' encountered in format string"
                 else "expected '}' before end of string")
        case Some(j) =>
          var name := t[1..j + 1];
          if name in fields then Prepend(fields[name], Format(t[j + 2..], fields))
          else Raised("KeyError: '" + name + "'")
    else if t[0] == '}' then
      if |t| > 1 && t[1] == '}' then Prepend("}", Format(t[2..], fields))
      else Raised("Single '}' encountered in format string")
    else
      assert '{' !in t ==> '{' !in t[1..];
      assert '}' !in t ==> '}' !in t[1..];
      assert [t[0]] + t[1..] == t;
      Prepend([t[0]], Format(t[1..], fields))
  }

  /** One character of literal text as written in a template. */
  function EscapeChar(c: char): string {
    if c == '{' then "{{" else if c == '}' then "}}" else [c]
  }

  /** Literal text written so that `format` reproduces it: every brace doubled. */
  function Escape(s: string): string {
    if s == [] then [] else EscapeChar(s[0]) + Escape(s[1..])
  }

  lemma FormatEscapeChar(c: char, rest: string, fields: map<string, string>)
    ensures Format(EscapeChar(c) + rest, fields) == Prepend([c], Format(rest, fields))
  {
    var t := EscapeChar(c) + rest;
    if c == '{' || c == '}' {
      assert t[0] == c && t[1] == c && t[2..] == rest;
    } else {
      assert t[0] == c && t[1..] == rest;
    }
  }

  lemma PrependPrepend(a: string, b: string, r: Outcome<string>)
    ensures Prepend(a, Prepend(b, r)) == Prepend(a + b, r)
  {
    if r.Ok? {
      assert a + (b + r.value) == (a + b) + r.value;
    }
  }

  /** Formatting escaped literal text in front of anything formats the rest and
      puts the literal text back in front. */
  lemma {:induction false} FormatAfterLiteral(s: string, rest: string, fields: map<string, string>)
    ensures Format(Escape(s) + rest, fields) == Prepend(s, Format(rest, fields))
    decreases |s|
  {
    if s == [] {
      assert Escape(s) + rest == rest;
      if Format(rest, fields).Ok? {
        assert [] + Format(rest, fields).value == Format(rest, fields).value;
      }
    } else {
      var tail := Escape(s[1..]) + rest;
      assert Escape(s) + rest == EscapeChar(s[0]) + tail;
      FormatEscapeChar(s[0], tail, fields);
      FormatAfterLiteral(s[1..], rest, fields);
      PrependPrepend([s[0]], s[1..], Format(rest, fields));
      assert [s[0]] + s[1..] == s;
    }
  }

  /** `format` undoes `Escape`: a template with no replacement field formats to
      its literal text, whatever the fields. */
  lemma FormatEscape(s: string, fields: map<string, string>)
    ensures Format(Escape(s), fields) == Ok(s)
  {
    assert Escape(s) + [] == Escape(s);
    FormatAfterLiteral(s, [], fields);
    assert s + [] == s;
  }

  /** The first occurrence is the one `IndexOf` finds. */
  lemma {:induction false} IndexOfFirst(s: string, c: char, k: nat)
    requires k < |s| && s[k] == c && c !in s[..k]
    ensures IndexOf(s, c) == Some(k)
    decreases k
  {
    if k > 0 {
      assert s[0] in s[..k];
      assert s[1..][..k - 1] == s[1..k];
      assert forall x :: x in s[1..k] ==> x in s[..k];
      IndexOfFirst(s[1..], c, k - 1);
    }
  }

  /** An ASCII letter or the underscore; no script counts it as a decimal digit. */
  predicate IdentifierLetter(c: char) {
    'a' <= c <= 'z' || 'A' <= c <= 'Z' || c == '_'
  }

  /** The replacement field `{name}` as written in a template. */
  function Field(name: string): string {
    "{" + name + "}"
  }

  /** A field name that `format` looks up as one keyword argument: it holds
      an ASCII letter or `_`, so it is not an index (a name made of decimal
      digits only, in any script, is one), and it has no conversion (`!`),
      format specification (`:`), attribute (`.`) or element (`[`) part. */
  predicate PlainName(name: string) {
    && (exists i :: 0 <= i < |name| && IdentifierLetter(name[i]))
    && (forall i :: 0 <= i < |name| ==> name[i] !in "{}:!.[")
  }

  /** A template that starts with the replacement field `{name}`. */
  lemma FormatFieldHead(name: string, rest: string, fields: map<string, string>)
    requires PlainName(name)
    ensures name in fields ==> Format(Field(name) + rest, fields) == Prepend(fields[name], Format(rest, fields))
    ensures name !in fields ==> Format(Field(name) + rest, fields).Raised?
  {
    assert '{' !in name && '}' !in name by {
      forall i | 0 <= i < |name|
        ensures name[i] != '{' && name[i] != '}'
      {
        assert name[i] !in "{}:!.[";
      }
    }
    var t := Field(name) + rest;
    assert t[0] == '{';
    assert t[1] != '{' by {
      assert t[1] == name[0];
      assert name[0] in name;
    }
    assert t[1..] == name + "}" + rest;
    assert t[1..][..|name|] == name;
    IndexOfFirst(t[1..], '}', |name|);
    assert t[1..|name| + 1] == name;
    assert t[|name| + 2..] == rest;
  }

  /** A replacement field `{name}` after escaped literal text is replaced by
      the field's value, and formatting goes on with the rest. */
  lemma FormatFieldThen(pre: string, name: string, rest: string, fields: map<string, string>)
    requires PlainName(name) && name in fields
    ensures Format(Escape(pre) + Field(name) + rest, fields) == Prepend(pre + fields[name], Format(rest, fields))
  {
    SeqAssoc(Escape(pre), Field(name), rest);
    FormatAfterLiteral(pre, Field(name) + rest, fields);
    FormatFieldHead(name, rest, fields);
    PrependPrepend(pre, fields[name], Format(rest, fields));
  }

  /** A replacement field whose name has no value makes `format` raise, whatever
      escaped literal text comes before it. */
  lemma FormatMissingField(pre: string, name: string, rest: string, fields: map<string, string>)
    requires PlainName(name) && name !in fields
    ensures Format(Escape(pre) + Field(name) + rest, fields).Raised?
  {
    SeqAssoc(Escape(pre), Field(name), rest);
    FormatAfterLiteral(pre, Field(name) + rest, fields);
    FormatFieldHead(name, rest, fields);
  }

  /** A replacement field `{name}` between literal texts is replaced by the
      field's value; a name with no value raises. */
  lemma FormatField(pre: string, name: string, post: string, fields: map<string, string>)
    requires PlainName(name)
    ensures name in fields ==> Format(Escape(pre) + Field(name) + Escape(post), fields) == Ok(pre + fields[name] + post)
    ensures name !in fields ==> Format(Escape(pre) + Field(name) + Escape(post), fields).Raised?
  {
    if name in fields {
      FormatFieldThen(pre, name, Escape(post), fields);
      FormatEscape(post, fields);
    } else {
      FormatMissingField(pre, name, Escape(post), fields);
    }
  }

  /** Two replacement fields between literal texts are both replaced, in place. */
  lemma FormatTwoFields(pre: string, a: string, mid: string, b: string, post: string,
                        fields: map<string, string>)
    requires PlainName(a) && a in fields
    requires PlainName(b) && b in fields
    ensures Format(Escape(pre) + Field(a) + Escape(mid) + Field(b) + Escape(post), fields)
              == Ok(pre + fields[a] + mid + fields[b] + post)
  {
    var head := Escape(pre) + Field(a);
    var rest := Escape(mid) + Field(b) + Escape(post);
    SeqAssoc(head, Escape(mid) + Field(b), Escape(post));
    SeqAssoc(head, Escape(mid), Field(b));
    FormatFieldThen(pre, a, rest, fields);
    FormatField(mid, b, post, fields);
    var front := pre + fields[a];
    SeqAssoc(front, mid + fields[b], post);
    SeqAssoc(front, mid, fields[b]);
  }
}

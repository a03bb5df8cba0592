/** The part of Python's `str.format` that a row template of the form
    `"{:10} {:6} ..."` uses: literal characters, doubled braces, and
    automatically numbered replacement fields with an optional minimum width,
    each filled with a string argument. */
module FormatSpec {
  import opened Wrappers
  import opened Decimal
  import opened FixedWidth

  /** One parsed element of a format string. */
  datatype Piece = Literal(ch: char) | Field(width: nat)

  /** Index of the first `}` at or after `i`, or `|s|` when there is none. */
  function CloseBrace(s: string, i: nat): (j: nat)
    requires i <= |s|
    ensures i <= j <= |s|
    ensures j < |s| ==> s[j] == '}'
    ensures forall k :: i <= k < j ==> s[k] != '}'
    decreases |s| - i
  {
    if i == |s| || s[i] == '}' then i else CloseBrace(s, i + 1)
  }

  /** The minimum width written between the braces of a replacement field:
      an empty body (`{}`) or an empty format spec (`{:}`) sets none, `:`
      followed by a decimal number without a leading zero sets that width.
      Any other body (an explicit index, a fill, an alignment, a zero-padding
      flag) is outside this subset. */
  function FieldWidth(body: string): Option<nat>
  {
    if body == [] || body == ":" then Some(0)
    else if body[0] == ':' && |body| > 1 && AllDigits(body[1..]) && body[1] != '0'
    then Some(ParseNat(body[1..]))
    else None
  }

  /** Splits a format string into pieces; `None` where Python raises
      `ValueError` (a lone `{` or `}`) or the string leaves this subset. */
  function ParseFormat(fmt: string): (r: Option<seq<Piece>>)
    decreases |fmt|
  {
    if fmt == [] then Some([])
    else if |fmt| > 1 && fmt[0] == fmt[1] && (fmt[0] == '{' || fmt[0] == '}') then
      match ParseFormat(fmt[2..])
      case Some(rest) => Some([Literal(fmt[0])] + rest)
      case None => None
    else if fmt[0] == '{' then
      var j := CloseBrace(fmt, 1);
      if j == |fmt| then None
      else
        match (FieldWidth(fmt[1..j]), ParseFormat(fmt[j + 1..]))
        case (Some(w), Some(rest)) => Some([Field(w)] + rest)
        case _ => None
    else if fmt[0] == '}' then None
    else
      match ParseFormat(fmt[1..])
      case Some(rest) => Some([Literal(fmt[0])] + rest)
      case None => None
  }

  /** Fills the fields left to right with the arguments, each padded to its
      width; `None` where Python raises `IndexError` for running out of
      arguments. Arguments left over are ignored, as in Python. */
  function Apply(pieces: seq<Piece>, args: seq<string>): (r: Option<string>)
  {
    if pieces == [] then Some([])
    else
      match pieces[0]
      case Literal(ch) =>
        (match Apply(pieces[1..], args)
         case Some(rest) => Some([ch] + rest)
         case None => None)
      case Field(w) =>
        if args == [] then None
        else
          match Apply(pieces[1..], args[1..])
          case Some(rest) => Some(Pad(args[0], w) + rest)
          case None => None
  }

  /** `fmt.format(*args)`. */
  function Format(fmt: string, args: seq<string>): Option<string>
  {
    match ParseFormat(fmt)
    case Some(pieces) => Apply(pieces, args)
    case None => None
  }

  /** The pieces of a row template: one width field per column, separated by
      single blanks. */
  function RowPieces(widths: seq<nat>): (p: seq<Piece>)
    requires |widths| > 0
    ensures |p| == 2 * |widths| - 1
  {
    if |widths| == 1 then [Field(widths[0])]
    else [Field(widths[0]), Literal(' ')] + RowPieces(widths[1..])
  }

  /** The replacement field `{:w}`. */
  function FieldSpec(w: nat): string
  {
    "{:" + ShowNat(w) + "}"
  }

  /** The row template text for the given column widths, `"{:w0} {:w1} ..."`. */
  function RowTemplate(widths: seq<nat>): string
    requires |widths| > 0
  {
    if |widths| == 1 then FieldSpec(widths[0])
    else FieldSpec(widths[0]) + " " + RowTemplate(widths[1..])
  }

  /** A row template is the templates of its first `k` columns and of the
      rest, joined by a blank. */
  lemma {:induction false} RowTemplateSplit(widths: seq<nat>, k: nat)
    requires 0 < k < |widths|
    ensures RowTemplate(widths) == RowTemplate(widths[..k]) + " " + RowTemplate(widths[k..])
  {
    var head := FieldSpec(widths[0]);
    assert RowTemplate(widths) == head + " " + RowTemplate(widths[1..]);
    if k == 1 {
      assert RowTemplate(widths[..k]) == head;
      assert widths[1..] == widths[k..];
    } else {
      var rest := widths[1..];
      RowTemplateSplit(rest, k - 1);
      assert rest[..k - 1] == widths[..k][1..];
      assert rest[k - 1..] == widths[k..];
      assert RowTemplate(widths[..k]) == head + " " + RowTemplate(rest[..k - 1]);
    }
  }

  /** A row template parses into one field per column separated by blanks,
      provided every width is positive (a width of 0 would be written `{:0}`,
      which Python reads as a zero-padding flag). */
  lemma {:induction false} ParseRowTemplate(widths: seq<nat>)
    requires |widths| > 0
    requires forall i :: 0 <= i < |widths| ==> widths[i] > 0
    ensures ParseFormat(RowTemplate(widths)) == Some(RowPieces(widths))
  {
    if |widths| == 1 {
      ParseWidthField(widths[0], "", []);
      assert FieldSpec(widths[0]) + "" == RowTemplate(widths);
      assert [Field(widths[0])] + [] == RowPieces(widths);
    } else {
      ParseRowTemplate(widths[1..]);
      ParseColumnThenBlank(widths[0], RowTemplate(widths[1..]), RowPieces(widths[1..]));
    }
  }

  /** A field `{:w}` and a blank in front of a parsed text add a field piece
      and a literal blank in front of its pieces. */
  lemma ParseColumnThenBlank(w: nat, tail: string, pieces: seq<Piece>)
    requires w > 0 && ParseFormat(tail) == Some(pieces)
    ensures ParseFormat(FieldSpec(w) + " " + tail) == Some([Field(w), Literal(' ')] + pieces)
  {
    ParseLiteral(' ', tail, pieces);
    ParseWidthField(w, " " + tail, [Literal(' ')] + pieces);
    assert FieldSpec(w) + " " + tail == FieldSpec(w) + (" " + tail);
    assert [Field(w)] + ([Literal(' ')] + pieces) == [Field(w), Literal(' ')] + pieces;
  }

  /** A field `{:w}` with a positive width parses into `Field(w)`. */
  lemma ParseWidthField(w: nat, rest: string, pieces: seq<Piece>)
    requires w > 0 && ParseFormat(rest) == Some(pieces)
    ensures ParseFormat(FieldSpec(w) + rest) == Some([Field(w)] + pieces)
  {
    var digits := ShowNat(w);
    var field := "{:" + digits + "}";
    var t := field + rest;
    assert t[0] == '{' && t[1] == ':';
    forall k | 1 <= k < |field| - 1
      ensures t[k] != '}'
    {
      if k >= 2 { assert t[k] == digits[k - 2]; assert IsDigit(digits[k - 2]); }
    }
    assert t[|field| - 1] == '}';
    CloseBraceAt(t, 1, |field| - 1);
    assert t[1..|field| - 1] == ":" + digits;
    FieldWidthOfShow(w);
    assert t[|field|..] == rest;
  }

  /** The body `:w` of a replacement field, with `w` written by `str()`, sets
      the width `w`. */
  lemma FieldWidthOfShow(w: nat)
    requires w > 0
    ensures FieldWidth(":" + ShowNat(w)) == Some(w)
  {
    var digits := ShowNat(w);
    ParseShow(w);
    assert (":" + digits)[1..] == digits;
    assert digits != "0";
  }

  /** An ordinary character parses into a literal piece. */
  lemma ParseLiteral(ch: char, rest: string, pieces: seq<Piece>)
    requires ch != '{' && ch != '}' && ParseFormat(rest) == Some(pieces)
    ensures ParseFormat([ch] + rest) == Some([Literal(ch)] + pieces)
  {
    assert ([ch] + rest)[1..] == rest;
  }

  /** `CloseBrace` finds the first closing brace. */
  lemma {:induction false} CloseBraceAt(s: string, i: nat, j: nat)
    requires i <= j < |s| && s[j] == '}'
    requires forall k :: i <= k < j ==> s[k] != '}'
    ensures CloseBrace(s, i) == j
    decreases j - i
  {
    if i < j {
      CloseBraceAt(s, i + 1, j);
    }
  }

  /** Filling a row template with at least as many arguments as it has
      columns renders the first arguments as fixed-width columns. */
  lemma {:induction false} ApplyRow(widths: seq<nat>, args: seq<string>)
    requires 0 < |widths| <= |args|
    ensures Apply(RowPieces(widths), args) == Some(Render(args[..|widths|], widths))
  {
    var p := RowPieces(widths);
    if |widths| == 1 {
      assert Apply(p[1..], args[1..]) == Some([]);
      assert Pad(args[0], widths[0]) + [] == Pad(args[0], widths[0]);
    } else {
      ApplyRow(widths[1..], args[1..]);
      assert p[1..] == [Literal(' ')] + RowPieces(widths[1..]);
      assert p[1..][1..] == RowPieces(widths[1..]);
      assert args[..|widths|][1..] == args[1..][..|widths| - 1];
      var tail := Render(args[1..][..|widths| - 1], widths[1..]);
      assert Apply(p[1..], args[1..]) == Some([' '] + tail);
      assert Render(args[..|widths|], widths) == Pad(args[0], widths[0]) + " " + tail;
      assert Pad(args[0], widths[0]) + ([' '] + tail) == Pad(args[0], widths[0]) + " " + tail;
    }
  }

  /** With fewer arguments than columns, formatting fails (`IndexError`). */
  lemma {:induction false} ApplyRowTooFew(widths: seq<nat>, args: seq<string>)
    requires 0 < |widths| && |args| < |widths|
    ensures Apply(RowPieces(widths), args) == None
  {
    var p := RowPieces(widths);
    if args != [] {
      ApplyRowTooFew(widths[1..], args[1..]);
      assert p[1..] == [Literal(' ')] + RowPieces(widths[1..]);
      assert p[1..][1..] == RowPieces(widths[1..]);
    }
  }
}

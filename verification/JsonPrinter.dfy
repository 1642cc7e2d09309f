/** Printing JSON values, in json.hpp: escape_string and dump. */
module JsonPrinter {
  import opened JsonOrder
  import opened Numerals
  import opened Prelude

  function HexDigit(d: nat): char
    requires d < 16
  {
    if d < 10 then '0' + d as char else 'a' + (d - 10) as char
  }

  /** std::hex with setw(4) and setfill('0'), for a character below 0x20 */
  function ControlHex(c: char): string
    requires c as int < 0x20
  {
    ['0', '0', HexDigit(c as int / 16), HexDigit(c as int % 16)]
  }

  function EscapeChar(c: char): (e: string)
    ensures e != []
  {
    if c == '"' then "\\\""
    else if c == '\\' then "\\\\"
    else if c as int == 8 then "\\b"
    else if c as int == 12 then "\\f"
    else if c == '\n' then "\\n"
    else if c == '\r' then "\\r"
    else if c == '\t' then "\\t"
    else if c as int <= 0x1f then "\\u" + ControlHex(c)
    else [c]
  }

  function Escape(s: string): string {
    if s == [] then [] else EscapeChar(s[0]) + Escape(s[1..])
  }

  lemma {:induction false} EscapeAppend(s: string, t: string)
    ensures Escape(s + t) == Escape(s) + Escape(t)
  {
    if s == [] {
      assert s + t == t;
    } else {
      assert (s + t)[1..] == s[1..] + t;
      EscapeAppend(s[1..], t);
      assert EscapeChar(s[0]) + (Escape(s[1..]) + Escape(t)) == EscapeChar(s[0]) + Escape(s[1..]) + Escape(t);
    }
  }

  /** escape_string */
  method EscapeString(s: string) returns (result: string)
    ensures result == Escape(s)
  {
    result := [];
    for i := 0 to |s|
      invariant result == Escape(s[..i])
    {
      assert s[..i + 1] == s[..i] + [s[i]];
      EscapeAppend(s[..i], [s[i]]);
      assert [s[i]][1..] == [] && Escape([s[i]]) == EscapeChar(s[i]) + Escape([]);
      result := result + EscapeChar(s[i]);
    }
    assert s[..|s|] == s;
  }

  /** The parameters of dump. */
  datatype Style = Style(pretty: bool, step: nat)

  /** new_indent, an unsigned int, inside a container whose own indentation is `indent` */
  function Inner(style: Style, indent: nat): nat { if style.pretty then (indent + style.step) % WORD32 else indent }

  function Spaces(style: Style, n: nat): string { if style.pretty then seq(n, _ => ' ') else [] }

  function NewLine(style: Style): string { if style.pretty then "\n" else [] }

  /** What ends a container: a new line, its own indentation and the bracket. */
  function Closing(style: Style, indent: nat, bracket: char): string {
    NewLine(style) + Spaces(style, indent) + [bracket]
  }

  function Comma(style: Style): string { "," + NewLine(style) }

  function Colon(style: Style): string { if style.pretty then ": " else ":" }

  function Dump(v: Value, style: Style, indent: nat): (text: string)
    requires FloatFree(v)
    ensures text != []
    decreases v, 0
  {
    match v
    case Null => "null"
    case Bool(b) => if b then "true" else "false"
    case Int(n) => Decimal(n)
    case Str(s) => "\"" + Escape(s) + "\""
    case Arr(elems) =>
      if elems == [] then "[]"
      else "[" + NewLine(style) + DumpElems(elems, style, Inner(style, indent)) + Closing(style, indent, ']')
    case Obj(members) =>
      if members == [] then "{}"
      else "{" + NewLine(style) + DumpMembers(members, style, Inner(style, indent)) + Closing(style, indent, '}')
  }

  function DumpElems(elems: seq<Value>, style: Style, indent: nat): string
    requires ElemsFloatFree(elems)
    decreases elems, 0
  {
    if elems == [] then []
    else Spaces(style, indent) + Dump(elems[0], style, indent) + DumpMoreElems(elems[1..], style, indent)
  }

  function DumpMoreElems(elems: seq<Value>, style: Style, indent: nat): string
    requires ElemsFloatFree(elems)
    decreases elems, 1
  {
    if elems == [] then [] else Comma(style) + DumpElems(elems, style, indent)
  }

  function DumpKey(key: string, style: Style): string { "\"" + Escape(key) + "\"" + Colon(style) }

  function DumpMembers(members: seq<Member>, style: Style, indent: nat): string
    requires MembersFloatFree(members)
    decreases members, 0
  {
    if members == [] then []
    else
      Spaces(style, indent) + (DumpKey(members[0].key, style) + Dump(members[0].value, style, indent))
        + DumpMoreMembers(members[1..], style, indent)
  }

  function DumpMoreMembers(members: seq<Member>, style: Style, indent: nat): string
    requires MembersFloatFree(members)
    decreases members, 1
  {
    if members == [] then [] else Comma(style) + DumpMembers(members, style, indent)
  }

  lemma {:induction false} DumpElemsAppend(elems: seq<Value>, v: Value, style: Style, indent: nat)
    requires elems != [] && ElemsFloatFree(elems) && FloatFree(v)
    ensures ElemsFloatFree(elems + [v])
    ensures DumpElems(elems + [v], style, indent)
      == DumpElems(elems, style, indent) + (Comma(style) + (Spaces(style, indent) + Dump(v, style, indent)))
  {
    var last := Comma(style) + (Spaces(style, indent) + Dump(v, style, indent));
    var first, more := Spaces(style, indent) + Dump(elems[0], style, indent), elems[1..] + [v];
    assert (elems + [v])[1..] == more;
    if |elems| > 1 {
      DumpElemsAppend(elems[1..], v, style, indent);
      Associate(Comma(style), DumpElems(elems[1..], style, indent), last);
    } else {
      assert more == [v] && [v][1..] == [];
      assert DumpElems([v], style, indent) == Spaces(style, indent) + Dump(v, style, indent);
    }
    assert DumpMoreElems(more, style, indent) == DumpMoreElems(elems[1..], style, indent) + last;
    Associate(first, DumpMoreElems(elems[1..], style, indent), last);
    assert DumpElems(elems + [v], style, indent) == first + DumpMoreElems(more, style, indent);
  }

  lemma {:induction false} DumpMembersAppend(members: seq<Member>, m: Member, style: Style, indent: nat)
    requires members != [] && MembersFloatFree(members) && FloatFree(m.value)
    ensures MembersFloatFree(members + [m])
    ensures DumpMembers(members + [m], style, indent) == DumpMembers(members, style, indent)
      + (Comma(style) + (Spaces(style, indent) + (DumpKey(m.key, style) + Dump(m.value, style, indent))))
  {
    var text := DumpKey(m.key, style) + Dump(m.value, style, indent);
    var last := Comma(style) + (Spaces(style, indent) + text);
    var first := Spaces(style, indent) + (DumpKey(members[0].key, style) + Dump(members[0].value, style, indent));
    var more := members[1..] + [m];
    assert (members + [m])[1..] == more;
    if |members| > 1 {
      DumpMembersAppend(members[1..], m, style, indent);
      Associate(Comma(style), DumpMembers(members[1..], style, indent), last);
    } else {
      assert more == [m] && [m][1..] == [];
      assert DumpMembers([m], style, indent) == Spaces(style, indent) + text;
    }
    assert DumpMoreMembers(more, style, indent) == DumpMoreMembers(members[1..], style, indent) + last;
    Associate(first, DumpMoreMembers(members[1..], style, indent), last);
    assert DumpMembers(members + [m], style, indent) == first + DumpMoreMembers(more, style, indent);
  }

  lemma {:induction false} ElemsTake(elems: seq<Value>, i: nat)
    requires ElemsFloatFree(elems) && i <= |elems|
    ensures ElemsFloatFree(elems[..i]) && (i < |elems| ==> FloatFree(elems[i]))
  {
    if i > 0 {
      ElemsTake(elems[1..], i - 1);
      assert elems[..i][1..] == elems[1..][..i - 1];
    }
  }

  lemma {:induction false} MembersTake(members: seq<Member>, i: nat)
    requires MembersFloatFree(members) && i <= |members|
    ensures MembersFloatFree(members[..i]) && (i < |members| ==> FloatFree(members[i].value))
  {
    if i > 0 {
      MembersTake(members[1..], i - 1);
      assert members[..i][1..] == members[1..][..i - 1];
    }
  }

  /** dump, with its loops over the elements and the members. */
  method DumpValue(v: Value, style: Style, indent: nat) returns (text: string)
    requires FloatFree(v)
    ensures text == Dump(v, style, indent)
    decreases v, 1
  {
    match v
    case Null => text := "null";
    case Bool(b) => text := if b then "true" else "false";
    case Int(n) => text := Decimal(n);
    case Str(s) =>
      var e := EscapeString(s);
      text := "\"" + e + "\"";
    case Arr(elems) =>
      if elems == [] { return "[]"; }
      var inside := DumpArray(elems, style, Inner(style, indent));
      text := "[" + NewLine(style) + inside + Closing(style, indent, ']');
    case Obj(members) =>
      if members == [] { return "{}"; }
      var inside := DumpObject(members, style, Inner(style, indent));
      text := "{" + NewLine(style) + inside + Closing(style, indent, '}');
  }

  method DumpArray(elems: seq<Value>, style: Style, indent: nat) returns (text: string)
    requires ElemsFloatFree(elems)
    ensures text == DumpElems(elems, style, indent)
    decreases elems, 0
  {
    text := [];
    for i := 0 to |elems|
      invariant ElemsFloatFree(elems[..i]) && text == DumpElems(elems[..i], style, indent)
    {
      ElemsTake(elems, i);
      var one := DumpValue(elems[i], style, indent);
      if i > 0 {
        DumpElemsAppend(elems[..i], elems[i], style, indent);
        text := text + (Comma(style) + (Spaces(style, indent) + one));
      } else {
        assert elems[..1][1..] == [];
        text := Spaces(style, indent) + one;
      }
      assert elems[..i + 1] == elems[..i] + [elems[i]];
      ElemsTake(elems, i + 1);
    }
    assert elems[..|elems|] == elems;
  }

  method DumpObject(members: seq<Member>, style: Style, indent: nat) returns (text: string)
    requires MembersFloatFree(members)
    ensures text == DumpMembers(members, style, indent)
    decreases members, 0
  {
    text := [];
    for i := 0 to |members|
      invariant MembersFloatFree(members[..i]) && text == DumpMembers(members[..i], style, indent)
    {
      MembersTake(members, i);
      var key := EscapeString(members[i].key);
      var one := DumpValue(members[i].value, style, indent);
      var member := ("\"" + key + "\"" + Colon(style)) + one;
      if i > 0 {
        DumpMembersAppend(members[..i], members[i], style, indent);
        text := text + (Comma(style) + (Spaces(style, indent) + member));
      } else {
        assert members[..1][1..] == [];
        text := Spaces(style, indent) + member;
      }
      assert members[..i + 1] == members[..i] + [members[i]];
      MembersTake(members, i + 1);
    }
    assert members[..|members|] == members;
  }
}

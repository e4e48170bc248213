/**
 * camelToKebab and stylesToCSS (style-utils.ts:176-187): a style record
 * becomes the text of a CSS declaration list.
 *
 * camelToKebab is a global regular-expression replacement followed by
 * `toLowerCase()`. Hyphenate follows the regular expression's scan
 * literally: at each position it first tries a lower-case letter or digit
 * followed by an upper-case letter, then an upper-case letter alone, and
 * otherwise moves on one character. Only ASCII letters are modelled as
 * having a case.
 */
module Css {
  import opened StyleMap

  predicate IsUpper(c: char) {
    'A' <= c <= 'Z'
  }

  predicate IsLower(c: char) {
    'a' <= c <= 'z'
  }

  predicate IsLowerOrDigit(c: char) {
    IsLower(c) || '0' <= c <= '9'
  }

  function ToLower(c: char): (r: char)
    ensures IsUpper(c) ==> IsLower(r) && r as int - 'a' as int == c as int - 'A' as int
    ensures !IsUpper(c) ==> r == c
  {
    if IsUpper(c) then (c as int - 'A' as int + 'a' as int) as char else c
  }

  function ToUpper(c: char): (r: char)
    ensures IsLower(c) ==> IsUpper(r) && r as int - 'A' as int == c as int - 'a' as int
    ensures !IsLower(c) ==> r == c
  {
    if IsLower(c) then (c as int - 'a' as int + 'A' as int) as char else c
  }

  /** `toLowerCase()` */
  function Lower(s: string): (r: string)
    ensures |r| == |s|
  {
    if s == [] then [] else [ToLower(s[0])] + Lower(s[1..])
  }

  /** `replace(/([a-z0-9]|(?=[A-Z]))([A-Z])/g, '$1-$2')` */
  function Hyphenate(s: string): string {
    if |s| >= 2 && IsLowerOrDigit(s[0]) && IsUpper(s[1]) then [s[0], '-', s[1]] + Hyphenate(s[2..])
    else if |s| >= 1 && IsUpper(s[0]) then ['-', s[0]] + Hyphenate(s[1..])
    else if s == [] then []
    else [s[0]] + Hyphenate(s[1..])
  }

  /** camelToKebab */
  function CamelToKebab(s: string): string {
    Lower(Hyphenate(s))
  }

  /**
   * The intended reading of camelToKebab, one character at a time: every
   * upper-case letter becomes a dash and its lower-case form, every other
   * character stays.
   */
  function KebabChars(s: string): string {
    if s == [] then []
    else (if IsUpper(s[0]) then ['-', ToLower(s[0])] else [s[0]]) + KebabChars(s[1..])
  }

  /** The inverse direction: a dash and the letter after it become that letter in upper case. */
  function KebabToCamel(t: string): string {
    if t == [] then []
    else if |t| >= 2 && t[0] == '-' then [ToUpper(t[1])] + KebabToCamel(t[2..])
    else [t[0]] + KebabToCamel(t[1..])
  }

  function CountUpper(s: string): nat {
    if s == [] then 0 else (if IsUpper(s[0]) then 1 else 0) + CountUpper(s[1..])
  }

  /** The regular expression puts a dash before every upper-case letter, whichever branch matches it. */
  function DashBeforeUpper(s: string): string {
    if s == [] then []
    else (if IsUpper(s[0]) then ['-', s[0]] else [s[0]]) + DashBeforeUpper(s[1..])
  }

  lemma {:induction false} HyphenateDashes(s: string)
    ensures Hyphenate(s) == DashBeforeUpper(s)
    decreases |s|
  {
    if |s| >= 2 && IsLowerOrDigit(s[0]) && IsUpper(s[1]) {
      HyphenateDashes(s[2..]);
      assert s[1..][1..] == s[2..];
      assert DashBeforeUpper(s[1..]) == ['-', s[1]] + DashBeforeUpper(s[2..]);
    } else if s != [] {
      HyphenateDashes(s[1..]);
    }
  }

  lemma {:induction false} LowerAppend(a: string, b: string)
    ensures Lower(a + b) == Lower(a) + Lower(b)
  {
    if a != [] {
      assert (a + b)[1..] == a[1..] + b;
      LowerAppend(a[1..], b);
    } else {
      assert a + b == b;
    }
  }

  lemma {:induction false} LowerDashes(s: string)
    ensures Lower(DashBeforeUpper(s)) == KebabChars(s)
  {
    if s != [] {
      var head := if IsUpper(s[0]) then ['-', s[0]] else [s[0]];
      LowerAppend(head, DashBeforeUpper(s[1..]));
      LowerDashes(s[1..]);
      assert Lower(head) == if IsUpper(s[0]) then ['-', ToLower(s[0])] else [s[0]];
    }
  }

  /** camelToKebab puts a dash before each upper-case letter and lower-cases it, leaving the rest. */
  lemma CamelToKebabChars(s: string)
    ensures CamelToKebab(s) == KebabChars(s)
  {
    HyphenateDashes(s);
    LowerDashes(s);
  }

  lemma {:induction false} KebabCharsFacts(s: string)
    ensures |KebabChars(s)| == |s| + CountUpper(s)
    ensures forall i :: 0 <= i < |KebabChars(s)| ==> !IsUpper(KebabChars(s)[i])
    ensures forall c :: !IsLower(c) && !IsUpper(c) && c != '-' ==> (c in KebabChars(s) <==> c in s)
  {
    if s != [] {
      KebabCharsFacts(s[1..]);
      var head := if IsUpper(s[0]) then ['-', ToLower(s[0])] else [s[0]];
      var t := KebabChars(s[1..]);
      assert KebabChars(s) == head + t;
      forall i | 0 <= i < |head + t| ensures !IsUpper((head + t)[i]) {
        if i >= |head| {
          assert (head + t)[i] == t[i - |head|];
        }
      }
      assert s == [s[0]] + s[1..];
    }
  }

  /** The result has no upper-case letter, and one more character per upper-case letter of the input. */
  lemma CamelToKebabShape(s: string)
    ensures |CamelToKebab(s)| == |s| + CountUpper(s)
    ensures forall i :: 0 <= i < |CamelToKebab(s)| ==> !IsUpper(CamelToKebab(s)[i])
    ensures forall c :: !IsLower(c) && !IsUpper(c) && c != '-' ==> (c in CamelToKebab(s) <==> c in s)
  {
    CamelToKebabChars(s);
    KebabCharsFacts(s);
  }

  lemma {:induction false} KebabCharsRoundTrip(s: string)
    requires '-' !in s
    ensures KebabToCamel(KebabChars(s)) == s
  {
    if s != [] {
      assert '-' !in s[1..] by {
        assert forall c :: c in s[1..] ==> c in s;
      }
      KebabCharsRoundTrip(s[1..]);
      var t := KebabChars(s[1..]);
      if IsUpper(s[0]) {
        var k := ['-', ToLower(s[0])] + t;
        assert k[2..] == t;
      } else {
        var k := [s[0]] + t;
        assert s[0] in s;
        assert k[1..] == t;
      }
    }
  }

  /** A camel-case name without dashes is recovered from its kebab-case form. */
  lemma CamelToKebabRoundTrip(s: string)
    requires '-' !in s
    ensures KebabToCamel(CamelToKebab(s)) == s
  {
    CamelToKebabChars(s);
    KebabCharsRoundTrip(s);
  }

  /** So distinct dash-free names never collide in the CSS text. */
  lemma CamelToKebabInjective(a: string, b: string)
    requires '-' !in a && '-' !in b && CamelToKebab(a) == CamelToKebab(b)
    ensures a == b
  {
    CamelToKebabRoundTrip(a);
    CamelToKebabRoundTrip(b);
  }

  /** `${camelToKebab(property)}: ${value}` */
  function Declaration(property: string, value: string): string {
    CamelToKebab(property) + ": " + value
  }

  function Declarations(styles: Styles<string>): (r: seq<string>)
    ensures |r| == |styles|
  {
    if styles == [] then []
    else [Declaration(styles[0].0, styles[0].1)] + Declarations(styles[1..])
  }

  /** `join('; ')` */
  function Join(ds: seq<string>): string {
    if ds == [] then ""
    else if |ds| == 1 then ds[0]
    else ds[0] + "; " + Join(ds[1..])
  }

  /** stylesToCSS, over the record's entries in insertion order. */
  function StylesToCss(styles: Styles<string>): string {
    Join(Declarations(styles))
  }

  /** The CSS text is empty exactly when the record is. */
  lemma StylesToCssEmpty(styles: Styles<string>)
    ensures StylesToCss(styles) == "" <==> styles == []
  {
    if styles != [] {
      var ds := Declarations(styles);
      assert ds[0] == Declaration(styles[0].0, styles[0].1);
      assert |ds[0]| >= 2;
      if |ds| > 1 {
        assert StylesToCss(styles) == ds[0] + "; " + Join(ds[1..]);
      }
    }
  }

  function TotalLength(ds: seq<string>): nat {
    if ds == [] then 0 else |ds[0]| + TotalLength(ds[1..])
  }

  /** n declarations are joined by n - 1 two-character separators. */
  lemma {:induction false} JoinLength(ds: seq<string>)
    requires ds != []
    ensures |Join(ds)| == TotalLength(ds) + 2 * (|ds| - 1)
  {
    if |ds| > 1 {
      JoinLength(ds[1..]);
    }
  }

  lemma StylesToCssLength(styles: Styles<string>)
    requires styles != []
    ensures |StylesToCss(styles)| == TotalLength(Declarations(styles)) + 2 * (|styles| - 1)
  {
    JoinLength(Declarations(styles));
  }

  /** Adding an entry at the end adds a separator and its declaration. */
  lemma {:induction false} StylesToCssSnoc(styles: Styles<string>, property: string, value: string)
    requires styles != []
    ensures StylesToCss(styles + [(property, value)]) == StylesToCss(styles) + "; " + Declaration(property, value)
  {
    DeclarationsAppend(styles, [(property, value)]);
    assert Declarations([(property, value)]) == [Declaration(property, value)];
    JoinSnoc(Declarations(styles), Declaration(property, value));
  }

  lemma {:induction false} DeclarationsAppend(a: Styles<string>, b: Styles<string>)
    ensures Declarations(a + b) == Declarations(a) + Declarations(b)
  {
    if a != [] {
      assert (a + b)[1..] == a[1..] + b;
      DeclarationsAppend(a[1..], b);
    } else {
      assert a + b == b;
    }
  }

  lemma {:induction false} JoinSnoc(ds: seq<string>, d: string)
    requires ds != []
    ensures Join(ds + [d]) == Join(ds) + "; " + d
  {
    if |ds| == 1 {
      assert (ds + [d])[1..] == [d];
    } else {
      assert (ds + [d])[1..] == ds[1..] + [d];
      JoinSnoc(ds[1..], d);
    }
  }

  // Reading the text back: the partner of StylesToCss.

  /** The pieces of `s` between occurrences of `c`. */
  function SplitOn(s: string, c: char): (r: seq<string>)
    ensures |r| >= 1
  {
    if s == [] then [[]]
    else
      var rest := SplitOn(s[1..], c);
      if s[0] == c then [[]] + rest else [[s[0]] + rest[0]] + rest[1..]
  }

  /** The part of `s` before the first `c`, and the part after it. */
  function SplitFirst(s: string, c: char): (string, string) {
    if s == [] then ([], [])
    else if s[0] == c then ([], s[1..])
    else
      var (before, after) := SplitFirst(s[1..], c);
      ([s[0]] + before, after)
  }

  function DropSpace(s: string): string {
    if |s| > 0 && s[0] == ' ' then s[1..] else s
  }

  function ParseDeclaration(d: string): (string, string) {
    var (name, rest) := SplitFirst(d, ':');
    (KebabToCamel(name), DropSpace(rest))
  }

  function ParseDeclarations(ds: seq<string>): (r: Styles<string>)
    ensures |r| == |ds|
  {
    if ds == [] then [] else [ParseDeclaration(ds[0])] + ParseDeclarations(ds[1..])
  }

  /** The pieces after the first, each without the space the separator left in front. */
  function DropSpaces(ps: seq<string>): (r: seq<string>)
    ensures |r| == |ps|
  {
    if ps == [] then [] else [DropSpace(ps[0])] + DropSpaces(ps[1..])
  }

  function Spaced(ds: seq<string>): (r: seq<string>)
    ensures |r| == |ds|
  {
    if ds == [] then [] else [" " + ds[0]] + Spaced(ds[1..])
  }

  /** A declaration list read back into a record. */
  function ParseCss(css: string): Styles<string> {
    if css == "" then []
    else
      var ps := SplitOn(css, ';');
      ParseDeclarations([ps[0]] + DropSpaces(ps[1..]))
  }

  lemma {:induction false} SplitOnNone(s: string, c: char)
    requires c !in s
    ensures SplitOn(s, c) == [s]
  {
    if s != [] {
      assert s[0] in s;
      assert forall x :: x in s[1..] ==> x in s;
      SplitOnNone(s[1..], c);
      assert [s[0]] + s[1..] == s;
    }
  }

  lemma {:induction false} SplitOnConcat(a: string, b: string, c: char)
    requires c !in a
    ensures SplitOn(a + [c] + b, c) == [a] + SplitOn(b, c)
  {
    if a == [] {
      assert a + [c] + b == [c] + b;
      assert ([c] + b)[1..] == b;
    } else {
      assert a[0] in a;
      assert forall x :: x in a[1..] ==> x in a;
      assert (a + [c] + b)[1..] == a[1..] + [c] + b;
      SplitOnConcat(a[1..], b, c);
      assert [a[0]] + a[1..] == a;
    }
  }

  predicate NoSemicolon(ds: seq<string>) {
    forall i :: 0 <= i < |ds| ==> ';' !in ds[i]
  }

  lemma {:induction false} SplitJoin(p: string, ds: seq<string>)
    requires ';' !in p && ds != [] && NoSemicolon(ds)
    ensures SplitOn(p + Join(ds), ';') == [p + ds[0]] + Spaced(ds[1..])
    decreases |ds|
  {
    if |ds| == 1 {
      assert ';' !in p + ds[0];
      SplitOnNone(p + ds[0], ';');
    } else {
      var rest := Join(ds[1..]);
      assert p + Join(ds) == (p + ds[0]) + [';'] + (" " + rest);
      assert ';' !in p + ds[0];
      SplitOnConcat(p + ds[0], " " + rest, ';');
      SplitJoin(" ", ds[1..]);
    }
  }

  lemma {:induction false} DropSpacesSpaced(ds: seq<string>)
    ensures DropSpaces(Spaced(ds)) == ds
  {
    if ds != [] {
      assert (" " + ds[0])[1..] == ds[0];
      DropSpacesSpaced(ds[1..]);
    }
  }

  lemma {:induction false} SplitFirstConcat(a: string, b: string, c: char)
    requires c !in a
    ensures SplitFirst(a + [c] + b, c) == (a, b)
  {
    if a == [] {
      assert a + [c] + b == [c] + b;
      assert ([c] + b)[1..] == b;
    } else {
      assert a[0] in a;
      assert forall x :: x in a[1..] ==> x in a;
      assert (a + [c] + b)[1..] == a[1..] + [c] + b;
      SplitFirstConcat(a[1..], b, c);
      assert [a[0]] + a[1..] == a;
    }
  }

  /** A property name that survives the round trip: no dash, colon or semicolon. */
  predicate PlainName(property: string) {
    '-' !in property && ':' !in property && ';' !in property
  }

  lemma DeclarationRoundTrip(property: string, value: string)
    requires PlainName(property)
    ensures ';' !in value ==> ';' !in Declaration(property, value)
    ensures ParseDeclaration(Declaration(property, value)) == (property, value)
  {
    var k := CamelToKebab(property);
    CamelToKebabShape(property);
    assert ':' !in k && ';' !in k;
    assert Declaration(property, value) == k + [':'] + (" " + value);
    SplitFirstConcat(k, " " + value, ':');
    assert (" " + value)[1..] == value;
    CamelToKebabRoundTrip(property);
  }

  lemma {:induction false} ParseDeclarationsRoundTrip(styles: Styles<string>)
    requires forall i :: 0 <= i < |styles| ==> PlainName(styles[i].0) && ';' !in styles[i].1
    ensures NoSemicolon(Declarations(styles))
    ensures ParseDeclarations(Declarations(styles)) == styles
  {
    if styles != [] {
      DeclarationRoundTrip(styles[0].0, styles[0].1);
      ParseDeclarationsRoundTrip(styles[1..]);
    }
  }

  /**
   * The CSS text determines the record: reading it back gives every entry
   * in order, provided no name holds a dash, colon or semicolon and no
   * value holds a semicolon.
   */
  lemma StylesToCssRoundTrip(styles: Styles<string>)
    requires forall i :: 0 <= i < |styles| ==> PlainName(styles[i].0) && ';' !in styles[i].1
    ensures ParseCss(StylesToCss(styles)) == styles
  {
    StylesToCssEmpty(styles);
    if styles != [] {
      var ds := Declarations(styles);
      ParseDeclarationsRoundTrip(styles);
      SplitJoin("", ds);
      assert "" + Join(ds) == Join(ds);
      assert "" + ds[0] == ds[0];
      DropSpacesSpaced(ds[1..]);
      assert [ds[0]] + ds[1..] == ds;
    }
  }
}

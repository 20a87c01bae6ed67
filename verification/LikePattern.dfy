/**
 Prefix search through LIKE: the pattern is the escaped prefix followed by a percent sign,
 with backslash as escape character. LIKE is the predicate of section 8.5 of ISO/IEC 9075-2.
 */
module LikePattern {
  import opened Wrappers

  datatype Atom = Literal(c: char) | AnyCharacter | AnyString

  predicate IsSpecial(c: char) {
    c == '\\' || c == '%' || c == '_'
  }

  /** A pattern read atom by atom; an escape must be followed by a special character. */
  function Parse(pattern: string): Result<seq<Atom>, ()> {
    if pattern == "" then Ok([])
    else if pattern[0] == '\\' then
      if |pattern| < 2 || !IsSpecial(pattern[1]) then Err(())
      else Prepend(Literal(pattern[1]), Parse(pattern[2..]))
    else if pattern[0] == '%' then Prepend(AnyString, Parse(pattern[1..]))
    else if pattern[0] == '_' then Prepend(AnyCharacter, Parse(pattern[1..]))
    else Prepend(Literal(pattern[0]), Parse(pattern[1..]))
  }

  function Prepend(atom: Atom, rest: Result<seq<Atom>, ()>): Result<seq<Atom>, ()> {
    match rest
    case Ok(atoms) => Ok([atom] + atoms)
    case Err(e) => Err(e)
  }

  predicate Matches(atoms: seq<Atom>, s: string)
    decreases |atoms|
  {
    if atoms == [] then s == ""
    else
      match atoms[0]
      case Literal(c) => s != "" && s[0] == c && Matches(atoms[1..], s[1..])
      case AnyCharacter => s != "" && Matches(atoms[1..], s[1..])
      case AnyString => exists k :: 0 <= k <= |s| && Matches(atoms[1..], s[k..])
  }

  predicate Like(s: string, pattern: string) {
    var parsed := Parse(pattern);
    parsed.Ok? && Matches(parsed.value, s)
  }

  // ---- escaping

  /** Replaces every occurrence of one character by a string. */
  function Replace(s: string, c: char, text: string): string {
    if s == "" then "" else (if s[0] == c then text else [s[0]]) + Replace(s[1..], c, text)
  }

  function EscapeLikePrefix(value: string): string {
    Replace(Replace(Replace(value, '\\', "\\\\"), '%', "\\%"), '_', "\\_")
  }

  /** The escape in one pass: a backslash before each special character. */
  function EscapeEach(value: string): string {
    if value == "" then ""
    else (if IsSpecial(value[0]) then ['\\', value[0]] else [value[0]]) + EscapeEach(value[1..])
  }

  lemma {:induction false} ReplaceConcat(a: string, b: string, c: char, text: string)
    ensures Replace(a + b, c, text) == Replace(a, c, text) + Replace(b, c, text)
  {
    if a == "" {
      assert a + b == b;
    } else {
      ReplaceConcat(a[1..], b, c, text);
      assert (a + b)[1..] == a[1..] + b;
    }
  }

  lemma ReplaceShort(s: string, c: char, text: string)
    requires 1 <= |s| <= 2
    ensures Replace(s, c, text) == (if s[0] == c then text else [s[0]]) +
            if |s| == 2 then (if s[1] == c then text else [s[1]]) else ""
  {
    if |s| == 2 {
      assert Replace(s[1..], c, text) == (if s[1] == c then text else [s[1]]) + Replace(s[1..][1..], c, text);
    }
  }

  /** Escaping one character and then the rest escapes the whole. */
  lemma EscapeFirst(c: char, rest: string)
    ensures EscapeLikePrefix([c] + rest) == (if IsSpecial(c) then ['\\', c] else [c]) + EscapeLikePrefix(rest)
  {
    var first := if c == '\\' then "\\\\" else [c];
    ReplaceConcat([c], rest, '\\', "\\\\");
    ReplaceShort([c], '\\', "\\\\");
    var rest1 := Replace(rest, '\\', "\\\\");
    ReplaceConcat(first, rest1, '%', "\\%");
    ReplaceShort(first, '%', "\\%");
    var second := if c == '%' then "\\%" else first;
    assert Replace(first, '%', "\\%") == second;
    var rest2 := Replace(rest1, '%', "\\%");
    ReplaceConcat(second, rest2, '_', "\\_");
    ReplaceShort(second, '_', "\\_");
    assert Replace(second, '_', "\\_") == if IsSpecial(c) then ['\\', c] else [c];
  }

  /** The three chained replacements are exactly the one-pass escape. */
  lemma {:induction false} ChainedEscapeIsOnePass(value: string)
    ensures EscapeLikePrefix(value) == EscapeEach(value)
  {
    if value != "" {
      assert value == [value[0]] + value[1..];
      EscapeFirst(value[0], value[1..]);
      ChainedEscapeIsOnePass(value[1..]);
    }
  }

  function Literals(value: string): seq<Atom> {
    seq(|value|, i requires 0 <= i < |value| => Literal(value[i]))
  }

  lemma {:induction false} ParseEscaped(value: string)
    ensures Parse(EscapeEach(value) + "%") == Ok(Literals(value) + [AnyString])
  {
    if value == "" {
      assert Parse("%") == Prepend(AnyString, Parse("%"[1..]));
      assert Parse("") == Ok([]);
      assert Literals(value) + [AnyString] == [AnyString] + [];
      assert EscapeEach(value) + "%" == "%";
    } else {
      var tail := EscapeEach(value[1..]) + "%";
      var pattern := EscapeEach(value) + "%";
      ParseEscaped(value[1..]);
      if IsSpecial(value[0]) {
        assert pattern == ['\\', value[0]] + tail;
        assert pattern[2..] == tail;
      } else {
        assert pattern == [value[0]] + tail;
        assert pattern[1..] == tail;
      }
      assert Literals(value) == [Literal(value[0])] + Literals(value[1..]);
      assert Literals(value) + [AnyString] == [Literal(value[0])] + (Literals(value[1..]) + [AnyString]);
    }
  }

  lemma {:induction false} LiteralsMatchPrefix(value: string, s: string)
    ensures Matches(Literals(value) + [AnyString], s) <==> value <= s
  {
    var atoms := Literals(value) + [AnyString];
    if value == "" {
      assert atoms[1..] == [];
      assert s[|s|..] == "" && Matches([], s[|s|..]);
    } else {
      assert atoms[1..] == Literals(value[1..]) + [AnyString];
      if s != "" {
        LiteralsMatchPrefix(value[1..], s[1..]);
      }
    }
  }

  /** Prefix search is exact: whatever the prefix holds, LIKE matches its extensions only. */
  lemma PrefixSearchIsExact(prefix: string, s: string)
    ensures Like(s, EscapeLikePrefix(prefix) + "%") <==> prefix <= s
  {
    ChainedEscapeIsOnePass(prefix);
    ParseEscaped(prefix);
    LiteralsMatchPrefix(prefix, s);
  }
}

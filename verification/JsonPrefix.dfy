/** What a reader makes of a canonical document that was cut short. A text that parses as an
    object still parses to that object when more text follows, so no proper prefix of an
    object's text parses at all; only the closing newline can be missing. */
module JsonPrefix {
  import opened Common
  import opened CanonicalJson

  /** More text behind a quoted string or a finished number does not change what is read. */
  ghost predicate QuoteExtends(lex: Lexer, s: string, t: string)
  {
    lex.unquote(s).Some? ==>
      lex.unquote(s + t) == Some((lex.unquote(s).value.0, lex.unquote(s).value.1 + t))
  }

  ghost predicate NumberExtends(lex: Lexer, s: string, t: string)
  {
    lex.unnumber(s).Some? && lex.unnumber(s).value.1 != "" ==>
      lex.unnumber(s + t) == Some((lex.unnumber(s).value.0, lex.unnumber(s).value.1 + t))
  }

  ghost predicate Extendable(lex: Lexer)
  {
    && (forall s, t {:trigger QuoteExtends(lex, s, t)} :: QuoteExtends(lex, s, t))
    && (forall s, t {:trigger NumberExtends(lex, s, t)} :: NumberExtends(lex, s, t))
  }

  // -------------------------------------------------------------------------- characters

  lemma UnHex4Extends(s: string, t: string)
    requires |s| >= 4
    ensures UnHex4(s + t) == UnHex4(s)
  {
  }

  lemma DropExtends(s: string, t: string, k: nat)
    requires k <= |s|
    ensures (s + t)[k..] == s[k..] + t
  {
  }

  lemma UnescapeExtends(s: string, t: string)
    requires Unescape(s).Some?
    ensures Unescape(s + t) == Some((Unescape(s).value.0, Unescape(s).value.1 + t))
  {
    if s[0] != '\\' {
      DropExtends(s, t, 1);
    } else if s[1] != 'u' {
      DropExtends(s, t, 2);
    } else {
      DropExtends(s, t, 2);
      DropExtends(s, t, 6);
      UnHex4Extends(s[2..], t);
      if |s| >= 12 {
        DropExtends(s, t, 8);
        DropExtends(s, t, 12);
        UnHex4Extends(s[8..], t);
      }
    }
  }

  lemma {:induction false} ReadStringExtends(s: string, t: string)
    requires ReadString(s).Some?
    ensures ReadString(s + t) == Some((ReadString(s).value.0, ReadString(s).value.1 + t))
    decreases |s|
  {
    if s[0] == '"' {
      DropExtends(s, t, 1);
    } else {
      var one := Unescape(s).value;
      UnescapeExtends(s, t);
      ReadStringExtends(one.1, t);
      ReadStep(s + t, one.0, one.1 + t);
    }
  }

  lemma {:induction false} DigitRunExtends(s: string, t: string)
    requires |DigitRun(s)| < |s|
    ensures DigitRun(s + t) == DigitRun(s)
  {
    if IsDigit(s[0]) {
      DropExtends(s, t, 1);
      DigitRunExtends(s[1..], t);
    }
  }

  lemma ReadNatExtends(s: string, t: string)
    requires ReadNat(s).Some? && ReadNat(s).value.1 != ""
    ensures ReadNat(s + t) == Some((ReadNat(s).value.0, ReadNat(s).value.1 + t))
  {
    DigitRunExtends(s, t);
    DropExtends(s, t, |DigitRun(s)|);
  }

  lemma ReadIntExtends(s: string, t: string)
    requires ReadInt(s).Some? && ReadInt(s).value.1 != ""
    ensures ReadInt(s + t) == Some((ReadInt(s).value.0, ReadInt(s).value.1 + t))
  {
    if s != "" && s[0] == '-' {
      DropExtends(s, t, 1);
      ReadNatExtends(s[1..], t);
    } else {
      ReadNatExtends(s, t);
    }
  }

  lemma AsciiIsExtendable()
    ensures Extendable(Ascii())
  {
    var lex := Ascii();
    forall s, t ensures QuoteExtends(lex, s, t) {
      if lex.unquote(s).Some? {
        ReadStringExtends(s, t);
      }
    }
    forall s, t ensures NumberExtends(lex, s, t) {
      if lex.unnumber(s).Some? && lex.unnumber(s).value.1 != "" {
        ReadIntExtends(s, t);
      }
    }
  }

  // ----------------------------------------------------------------------------- parsing

  /** The text is finished: more digits behind a number would belong to it. */
  predicate Finished(r: Option<(Json, string)>)
  {
    r.Some? && (r.value.0.JInt? ==> r.value.1 != "")
  }

  lemma WordExtends(s: string, t: string, word: string, v: Json)
    requires word != "" && ParseWord(s, word, v).Some?
    ensures ParseWord(s + t, word, v) == Some((v, s[|word|..] + t))
  {
    DropExtends(s, t, |word|);
    assert (s + t)[..|word|] == s[..|word|];
  }

  lemma {:induction false} ParseExtends(lex: Lexer, s: string, t: string)
    requires Extendable(lex) && Finished(ParseWith(lex, s))
    ensures ParseWith(lex, s + t) == Some((ParseWith(lex, s).value.0, ParseWith(lex, s).value.1 + t))
    decreases |s|, 1
  {
    assert (s + t)[0] == s[0];
    DropExtends(s, t, 1);
    if s[0] == 'n' {
      WordExtends(s, t, "null", JNull);
    } else if s[0] == 't' {
      WordExtends(s, t, "true", JBool(true));
    } else if s[0] == 'f' {
      WordExtends(s, t, "false", JBool(false));
    } else if s[0] == '"' {
      assert QuoteExtends(lex, s[1..], t);
    } else if s[0] == '[' {
      if s[1] == ']' {
        DropExtends(s, t, 2);
      } else {
        ItemsExtend(lex, s[1..], t);
      }
    } else if s[0] == '{' {
      if s[1] == '}' {
        DropExtends(s, t, 2);
      } else {
        FieldsExtend(lex, s[1..], t);
      }
    } else {
      assert NumberExtends(lex, s, t);
    }
  }

  lemma {:induction false} ItemsExtend(lex: Lexer, s: string, t: string)
    requires Extendable(lex) && ParseItems(lex, s).Some?
    ensures ParseItems(lex, s + t) == Some((ParseItems(lex, s).value.0, ParseItems(lex, s).value.1 + t))
    decreases |s|, 2
  {
    var rest := ParseWith(lex, s).value.1;
    ParseExtends(lex, s, t);
    DropExtends(rest, t, 1);
    if rest[0] != ']' {
      ItemsExtend(lex, rest[1..], t);
    }
  }

  lemma {:induction false} FieldsExtend(lex: Lexer, s: string, t: string)
    requires Extendable(lex) && ParseFields(lex, s).Some?
    ensures ParseFields(lex, s + t) == Some((ParseFields(lex, s).value.0, ParseFields(lex, s).value.1 + t))
    decreases |s|, 2
  {
    var after := lex.unquote(s[1..]).value.1;
    var rest := ParseWith(lex, after[1..]).value.1;
    DropExtends(s, t, 1);
    assert QuoteExtends(lex, s[1..], t);
    DropExtends(after, t, 1);
    ParseExtends(lex, after[1..], t);
    DropExtends(rest, t, 1);
    if rest[0] != '}' {
      FieldsExtend(lex, rest[1..], t);
    }
  }

  // ---------------------------------------------------------------------------- prefixes

  /** An object's text parses only when all of it is there. */
  lemma ObjectPrefix(v: Json, k: nat)
    requires v.JObj? && k <= |Encode(v)|
    ensures Parse(Encode(v)[..k]) == if k == |Encode(v)| then Some((v, "")) else None
  {
    var prefix, missing := Encode(v)[..k], Encode(v)[k..];
    assert prefix + missing == Encode(v);
    ParseEncode(v, "");
    assert Encode(v) + "" == Encode(v);
    if Parse(prefix).Some? {
      assert prefix[0] == '{';
      AsciiIsExtendable();
      ParseExtends(Ascii(), prefix, missing);
    } else {
      assert k == |Encode(v)| ==> prefix == Encode(v);
    }
  }
}

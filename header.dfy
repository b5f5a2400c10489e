/**
 * The `Authorization` header as the server reads it (`authHeader.split(' ')[1]`,
 * server.js:54) and as the browser writes it (`"Bearer " + token`, global.js:16).
 */
module Header {
  import opened Wrappers

  /**
   * `s.split(sep)` for a one-character separator, as JavaScript computes it:
   * there is always at least one field, and every leading, trailing or
   * doubled separator produces an empty field. No field contains `sep`.
   */
  function Split(s: string, sep: char): (fields: seq<string>)
    ensures |fields| >= 1
    ensures forall i :: 0 <= i < |fields| ==> sep !in fields[i]
    decreases |s|
  {
    if s == [] then [[]]
    else
      var rest := Split(s[1..], sep);
      if s[0] == sep then [[]] + rest
      else [[s[0]] + rest[0]] + rest[1..]
  }

  /** The fields glued back together with `sep` between them: the inverse of Split. */
  function Join(fields: seq<string>, sep: char): string
    requires |fields| >= 1
  {
    if |fields| == 1 then fields[0] else fields[0] + [sep] + Join(fields[1..], sep)
  }

  /** Splitting and joining again gives back the original string. */
  lemma {:induction false} JoinSplit(s: string, sep: char)
    ensures Join(Split(s, sep), sep) == s
    decreases |s|
  {
    if s != [] {
      var rest := Split(s[1..], sep);
      JoinSplit(s[1..], sep);
      if s[0] == sep {
        assert Split(s, sep) == [[]] + rest;
        assert ([[]] + rest)[1..] == rest;
      } else if |rest| == 1 {
        assert Split(s, sep) == [[s[0]] + rest[0]];
      } else {
        var fields := [[s[0]] + rest[0]] + rest[1..];
        assert Split(s, sep) == fields;
        assert fields[1..] == rest[1..];
        assert Join(rest, sep) == rest[0] + [sep] + Join(rest[1..], sep);
      }
    }
  }

  /** A string without the separator is a single field. */
  lemma {:induction false} SplitNoSeparator(a: string, sep: char)
    requires sep !in a
    ensures Split(a, sep) == [a]
    decreases |a|
  {
    if a != [] {
      SplitNoSeparator(a[1..], sep);
      assert [a[0]] + a[1..] == a;
    }
  }

  /** A separator-free prefix followed by the separator becomes the first field. */
  lemma {:induction false} SplitAfterField(a: string, sep: char, rest: string)
    requires sep !in a
    ensures Split(a + [sep] + rest, sep) == [a] + Split(rest, sep)
    decreases |a|
  {
    var s := a + [sep] + rest;
    if a == [] {
      assert s[0] == sep && s[1..] == rest;
    } else {
      assert s[0] == a[0] && s[1..] == a[1..] + [sep] + rest;
      SplitAfterField(a[1..], sep, rest);
      assert [a[0]] + a[1..] == a;
    }
  }

  /** Joining separator-free fields and splitting again gives back the fields. */
  lemma {:induction false} SplitJoin(fields: seq<string>, sep: char)
    requires |fields| >= 1
    requires forall i :: 0 <= i < |fields| ==> sep !in fields[i]
    ensures Split(Join(fields, sep), sep) == fields
    decreases |fields|
  {
    if |fields| == 1 {
      SplitNoSeparator(fields[0], sep);
    } else {
      SplitJoin(fields[1..], sep);
      SplitAfterField(fields[0], sep, Join(fields[1..], sep));
      assert [fields[0]] + fields[1..] == fields;
    }
  }

  /**
   * The token `authenticateToken` takes from the header: the second
   * space-separated field, present only when that field exists and is not
   * empty (an absent header, an empty string and an empty field are all falsy
   * in JavaScript). The scheme word before the first space is never looked at.
   */
  function ExtractToken(header: Option<string>): (token: Option<string>)
    ensures token.Some? ==> token.value != [] && ' ' !in token.value
  {
    match header
    case None => None
    case Some(h) =>
      var fields := Split(h, ' ');
      if |fields| >= 2 && fields[1] != [] then Some(fields[1]) else None
  }

  /**
   * The header `apiRequest` sends on a call made with `auth` set
   * (global.js:14-16): `"Bearer " + token` when a token is stored, none when
   * nothing is. A call made without `auth` sends no header whatever is stored.
   */
  function ClientHeader(stored: Option<string>): Option<string>
  {
    if stored.Some? && stored.value != [] then Some("Bearer " + stored.value) else None
  }

  /**
   * Whatever header is built from space-free fields, the token is exactly its
   * second field, or nothing when that field is empty; later fields are ignored.
   */
  lemma TokenIsSecondField(fields: seq<string>)
    requires |fields| >= 2
    requires forall i :: 0 <= i < |fields| ==> ' ' !in fields[i]
    ensures ExtractToken(Some(Join(fields, ' '))) == if fields[1] == [] then None else Some(fields[1])
  {
    SplitJoin(fields, ' ');
  }

  /** The scheme word is not checked: `scheme + " " + token` yields the token for any scheme. */
  lemma SchemeIgnored(scheme: string, token: string)
    requires ' ' !in scheme && ' ' !in token && token != []
    ensures ExtractToken(Some(scheme + " " + token)) == Some(token)
  {
    assert Join([scheme, token], ' ') == scheme + " " + token;
    TokenIsSecondField([scheme, token]);
  }

  /** A header without any space has a single field, hence no token. */
  lemma NoSpaceNoToken(h: string)
    requires ' ' !in h
    ensures ExtractToken(Some(h)) == None
  {
    SplitNoSeparator(h, ' ');
  }

  /** Two spaces after the scheme make the second field empty, hence no token, whatever follows. */
  lemma DoubleSpaceNoToken(scheme: string, rest: string)
    requires ' ' !in scheme
    ensures ExtractToken(Some(scheme + "  " + rest)) == None
  {
    assert scheme + "  " + rest == scheme + [' '] + ([' '] + rest);
    SplitAfterField(scheme, ' ', [' '] + rest);
    SplitAfterField([], ' ', rest);
    assert [] + [' '] + rest == [' '] + rest;
  }

  /** A scheme other than `Bearer` still yields its token; a doubled space yields none. */
  lemma HeaderExamples()
    ensures ExtractToken(Some("Basic t")) == Some("t")
    ensures ExtractToken(Some("Bearer  x")) == None
  {
    assert "Basic" + " " + "t" == "Basic t";
    SchemeIgnored("Basic", "t");
    assert "Bearer" + "  " + "x" == "Bearer  x";
    DoubleSpaceNoToken("Bearer", "x");
  }

  /**
   * Round trip between browser and server: a non-empty, space-free token
   * stored by the browser is exactly the token the server extracts, and a
   * browser holding no token sends a header from which none is extracted.
   */
  lemma ClientHeaderRoundTrip(stored: Option<string>)
    requires stored.Some? ==> ' ' !in stored.value
    ensures ExtractToken(ClientHeader(stored)) == if stored.Some? && stored.value != [] then stored else None
  {
    if stored.Some? && stored.value != [] {
      assert "Bearer" + " " + stored.value == "Bearer " + stored.value;
      SchemeIgnored("Bearer", stored.value);
    }
  }
}

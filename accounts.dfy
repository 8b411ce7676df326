/**
 * The account-line parser of the page (`parseAccounts` in app.js): one
 * account per line, `Label|cookie` or `Label:cookie`, with an optional
 * `.ROBLOSECURITY=` prefix pasted in front of the cookie.
 */
module Accounts {
  import opened Wrappers
  import opened Text

  /** One parsed line; `name` is the line's label (`label` is a reserved word in Dafny). */
  datatype Account = Account(name: string, cookie: string)

  /** The cookie-name prefix removed from a pasted cookie. */
  const Marker: string := ".ROBLOSECURITY="

  /** What every parsed record satisfies. */
  predicate WellFormed(a: Account) {
    && a.name != [] && a.cookie != []
    && Trimmed(a.name)
    && '|' !in a.name && '|' !in a.cookie
  }

  /** Everything up to and including the first `.ROBLOSECURITY=` is dropped. */
  function StripMarker(cookie: string): (r: string)
    ensures |r| <= |cookie| && r == cookie[|cookie| - |r|..]
    ensures IndexOf(cookie, Marker).None? ==> r == cookie
    ensures IndexOf(cookie, Marker).Some? ==> |cookie| - |r| == IndexOf(cookie, Marker).value + |Marker|
  {
    match IndexOf(cookie, Marker)
    case None => cookie
    case Some(i) => cookie[i + |Marker|..]
  }

  /** `|` when the line has one, otherwise `:` when it has one. */
  function Separator(line: string): Option<char> {
    if '|' in line then Some('|') else if ':' in line then Some(':') else None
  }

  /** The record one trimmed, non-blank line gives, if any. */
  function ParseLine(line: string): (r: Option<Account>)
    ensures r.Some? ==> WellFormed(r.value)
    ensures Separator(line).None? ==> r.None?
  {
    match Separator(line)
    case None => None
    case Some(sep) =>
      var parts := Split(line, sep);
      var name := Trim(parts[0]);
      var cookie := StripMarker(Trim(if |parts| > 1 then parts[1] else ""));
      if name == [] || cookie == [] then None
      else
        assert '|' !in name && '|' !in cookie by {
          if '|' in name { TrimKeeps(parts[0], '|'); }
          if '|' in cookie { TrimKeeps(parts[1], '|'); }
        }
        Some(Account(name, cookie))
  }

  /** `map(l => l.trim()).filter(Boolean)` */
  function NonBlankLines(lines: seq<string>): (r: seq<string>)
    ensures |r| <= |lines|
    ensures forall k :: 0 <= k < |r| ==> r[k] != [] && Trimmed(r[k])
  {
    if lines == [] then []
    else
      var t := Trim(lines[0]);
      (if t == [] then [] else [t]) + NonBlankLines(lines[1..])
  }

  /** The records one line contributes: none or one. */
  function Emit(line: string): (r: seq<Account>)
    ensures |r| <= 1
    ensures forall k :: 0 <= k < |r| ==> WellFormed(r[k])
  {
    match ParseLine(line) case Some(a) => [a] case None => []
  }

  /** `map(parseLine).filter(Boolean)` */
  function Collect(lines: seq<string>): (r: seq<Account>)
    ensures |r| <= |lines|
    ensures forall k :: 0 <= k < |r| ==> WellFormed(r[k])
  {
    if lines == [] then [] else Emit(lines[0]) + Collect(lines[1..])
  }

  /**
   * `parseAccounts(raw)`: total, keeps at most one record per non-blank line,
   * and every record has a non-empty trimmed name and a non-empty cookie.
   */
  function ParseAccounts(raw: string): (r: seq<Account>)
    ensures |r| <= |NonBlankLines(Split(raw, '\n'))|
    ensures forall k :: 0 <= k < |r| ==> WellFormed(r[k])
  {
    Collect(NonBlankLines(Split(raw, '\n')))
  }

  lemma {:induction false} NonBlankLinesAppend(a: seq<string>, b: seq<string>)
    ensures NonBlankLines(a + b) == NonBlankLines(a) + NonBlankLines(b)
  {
    if a != [] {
      assert (a + b)[1..] == a[1..] + b;
      NonBlankLinesAppend(a[1..], b);
    } else {
      assert a + b == b;
    }
  }

  lemma {:induction false} CollectAppend(a: seq<string>, b: seq<string>)
    ensures Collect(a + b) == Collect(a) + Collect(b)
  {
    if a != [] {
      assert (a + b)[0] == a[0];
      assert (a + b)[1..] == a[1..] + b;
      CollectAppend(a[1..], b);
      calc {
        Collect(a + b);
        Emit(a[0]) + Collect(a[1..] + b);
        Emit(a[0]) + (Collect(a[1..]) + Collect(b));
      }
    } else {
      assert a + b == b;
    }
  }

  /** Lines are parsed independently: the records of two texts joined by a newline are those of each. */
  lemma ParseAccountsAppend(a: string, b: string)
    ensures ParseAccounts(a + "\n" + b) == ParseAccounts(a) + ParseAccounts(b)
  {
    assert a + "\n" + b == a + ['\n'] + b;
    SplitAppend(a, '\n', b);
    NonBlankLinesAppend(Split(a, '\n'), Split(b, '\n'));
    CollectAppend(NonBlankLines(Split(a, '\n')), NonBlankLines(Split(b, '\n')));
  }

  /** A text of one line gives what `ParseLine` gives for that line trimmed, or nothing if it is blank. */
  lemma ParseAccountsOneLine(line: string)
    requires '\n' !in line
    ensures ParseAccounts(line) ==
      if Trim(line) == [] then []
      else Emit(Trim(line))
  {
    assert Split(line, '\n') == [line];
    assert NonBlankLines([line]) == (if Trim(line) == [] then [] else [Trim(line)]);
  }

  /** The first piece of `b + tail` split on `sep` is `b` when `tail` is empty or starts with `sep`. */
  lemma SplitHead(b: string, sep: char, tail: string)
    requires sep !in b
    requires tail == [] || tail[0] == sep
    ensures |Split(b + tail, sep)| >= 1 && Split(b + tail, sep)[0] == b
  {
    if tail == [] {
      assert b + tail == b;
    } else {
      assert b + tail == b + [sep] + tail[1..];
      SplitAppend(b, sep, tail[1..]);
    }
  }

  /**
   * How one line is read: with `sep` the separator chosen (`|` whenever the
   * line holds one), the name is the trimmed text before the first `sep`,
   * the cookie the trimmed text between the first and the second `sep` with
   * the `.ROBLOSECURITY=` prefix removed, and anything after a second `sep`
   * is dropped; an empty name or cookie drops the line.
   */
  lemma ParseLineOf(a: string, sep: char, b: string, tail: string)
    requires sep == '|' || (sep == ':' && '|' !in a && '|' !in b && '|' !in tail)
    requires sep !in a && sep !in b
    requires tail == [] || tail[0] == sep
    ensures ParseLine(a + [sep] + b + tail) ==
      var name := Trim(a);
      var cookie := StripMarker(Trim(b));
      if name == [] || cookie == [] then None else Some(Account(name, cookie))
  {
    var line := a + [sep] + b + tail;
    assert line == a + [sep] + (b + tail);
    assert line[|a|] == sep;
    assert Separator(line) == Some(sep) by {
      if sep == ':' {
        assert forall x :: x in line ==> x in a || x == sep || x in b || x in tail;
      }
    }
    SplitAppend(a, sep, b + tail);
    assert Split(a, sep) == [a];
    SplitHead(b, sep, tail);
  }

  /** A cookie pasted with its name in front keeps only the value. */
  lemma StripMarkerPasted(v: string)
    ensures StripMarker(Marker + v) == v
  {
    assert OccursAt(Marker + v, Marker, 0);
  }

  /** A cookie without a `.` cannot hold the prefix and is kept as it is. */
  lemma StripMarkerNoDot(cookie: string)
    requires '.' !in cookie
    ensures StripMarker(cookie) == cookie
  {
    forall j: nat | j + |Marker| <= |cookie| ensures !OccursAt(cookie, Marker, j) {
      assert cookie[j..j + |Marker|][0] == cookie[j];
    }
  }

  /** A line of two separated words, the second without a `.`, gives that pair. */
  lemma ParseLineWords(a: string, sep: char, b: string)
    requires sep == '|' || (sep == ':' && '|' !in a && '|' !in b)
    requires sep !in a && sep !in b && '.' !in b
    requires a != [] && b != [] && Trimmed(a) && Trimmed(b)
    ensures ParseLine(a + [sep] + b) == Some(Account(a, b))
  {
    TrimIdempotent(a); TrimIdempotent(b); StripMarkerNoDot(b);
    ParseLineOf(a, sep, b, "");
    assert a + [sep] + b + "" == a + [sep] + b;
  }

  /** A cookie pasted with its `.ROBLOSECURITY=` prefix is stored without it. */
  lemma ParseLinePasted(a: string, b: string, v: string)
    requires b == Marker + v
    requires a != [] && v != [] && Trimmed(a) && Trimmed(b)
    requires '|' !in a && '|' !in b
    ensures ParseLine(a + ['|'] + b) == Some(Account(a, v))
  {
    TrimIdempotent(a); TrimIdempotent(b); StripMarkerPasted(v);
    ParseLineOf(a, '|', b, "");
    assert a + ['|'] + b + "" == a + ['|'] + b;
  }

  /**
   * A label followed by `|` and then nothing, or directly a second `|`, gives
   * no record: the cookie is the empty part between the separators.
   */
  lemma ParseLineEmptyCookie(a: string, tail: string)
    requires '|' !in a
    requires tail == [] || tail[0] == '|'
    ensures ParseLine(a + ['|'] + tail) == None
  {
    var e := tail[..0];
    assert a + ['|'] + e == a + ['|'];
    ParseLineOf(a, '|', e, tail);
  }

  // The sample lines of the account format: `Alice|abc123`, `Bob:xyz`,
  // `Carl|.ROBLOSECURITY=SECRETVAL`, and three lines that give no record.
  const AliceName := "Alice"
  const AliceCookie := "abc123"
  const BobName := "Bob"
  const BobCookie := "xyz"
  const CarlName := "Carl"
  const CarlCookie := "SECRETVAL"
  const CarlPasted := Marker + CarlCookie
  const DanName := "Dan"
  const NoNameCookie := "abc"

  lemma ParseLineAlice()
    ensures ParseLine(AliceName + "|" + AliceCookie) == Some(Account("Alice", "abc123"))
  {
    ParseLineWords(AliceName, '|', AliceCookie);
  }

  lemma ParseLineBob()
    ensures ParseLine(BobName + ":" + BobCookie) == Some(Account("Bob", "xyz"))
  {
    ParseLineWords(BobName, ':', BobCookie);
  }

  lemma ParseLineCarl()
    ensures ParseLine(CarlName + "|" + CarlPasted) == Some(Account("Carl", "SECRETVAL"))
  {
    assert CarlPasted[0] == '.' && CarlPasted[|CarlPasted| - 1] == 'L';
    ParseLinePasted(CarlName, CarlPasted, CarlCookie);
  }

  lemma ParseLineNoSeparator()
    ensures ParseLine("nonsense") == None
  {
    assert Separator("nonsense") == None;
  }

  lemma ParseLineNoCookie()
    ensures ParseLine(DanName + ['|']) == None
  {
    ParseLineEmptyCookie(DanName, []);
    assert DanName + ['|'] + [] == DanName + ['|'];
  }

  lemma ParseLineNoName()
    ensures ParseLine("|" + NoNameCookie) == None
  {
    TrimIdempotent([]);
    ParseLineOf([], '|', NoNameCookie, []);
    assert "|" + NoNameCookie == [] + ['|'] + NoNameCookie + [];
  }

  lemma ParseOneAccount(line: string, a: string, b: string)
    requires line == a + ['|'] + b
    requires '\n' !in line && '|' !in a && '|' !in b && '.' !in b
    requires a != [] && b != [] && Trimmed(a) && Trimmed(b)
    ensures ParseAccounts(line) == [Account(a, b)]
  {
    assert line[0] == a[0] && line[|line| - 1] == b[|b| - 1];
    TrimIdempotent(line); TrimIdempotent(a); TrimIdempotent(b); StripMarkerNoDot(b);
    ParseAccountsOneLine(line);
    ParseLineOf(a, '|', b, "");
    assert line == a + ['|'] + b + "";
  }

  /** Two plain account lines joined by a newline give their two records, in order. */
  lemma ParseAccountsTwoLines(l1: string, l2: string, a1: string, c1: string, a2: string, c2: string)
    requires l1 == a1 + ['|'] + c1 && '\n' !in l1 && '|' !in a1 && '|' !in c1 && '.' !in c1
    requires a1 != [] && c1 != [] && Trimmed(a1) && Trimmed(c1)
    requires l2 == a2 + ['|'] + c2 && '\n' !in l2 && '|' !in a2 && '|' !in c2 && '.' !in c2
    requires a2 != [] && c2 != [] && Trimmed(a2) && Trimmed(c2)
    ensures ParseAccounts(l1 + "\n" + l2) == [Account(a1, c1), Account(a2, c2)]
  {
    ParseOneAccount(l1, a1, c1);
    ParseOneAccount(l2, a2, c2);
    ParseAccountsAppend(l1, l2);
  }
}

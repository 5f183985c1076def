/**
 * The ODBC connection string the loader hands to pyodbc, built from an Airflow
 * connection record, and a reader for such strings used to state what the string
 * contains.
 */
module ConnString {
  import opened Wrappers
  import opened Text

  /** The fields of an Airflow connection that the string is built from; extra is its extra_dejson. */
  datatype Connection = Connection(
    host: Option<string>,
    port: Option<int>,
    schema: Option<string>,
    login: Option<string>,
    password: Option<string>,
    extra: map<string, string>)

  const DefaultDriver: string := "ODBC Driver 18 for SQL Server"
  const DefaultPort: int := 1433
  const DefaultEncrypt: string := "no"
  const DefaultTrust: string := "yes"

  /** How an f-string renders an optional attribute: a missing one prints as "None". */
  function Show(v: Option<string>): string {
    match v
    case None => "None"
    case Some(s) => s
  }

  /** dict.get(key, default) on the extras. */
  function ExtraOr(extra: map<string, string>, key: string, default: string): string {
    if key in extra then extra[key] else default
  }

  /** `port or 1433`: an unset port and port 0 (falsy in Python) both give the default. */
  function PortOrDefault(port: Option<int>): (p: int)
    ensures port.None? ==> p == DefaultPort
    ensures port.Some? && port.value != 0 ==> p == port.value
    ensures port == Some(0) ==> p == DefaultPort
  {
    match port
    case None => DefaultPort
    case Some(n) => if n == 0 then DefaultPort else n
  }

  function Driver(c: Connection): string { ExtraOr(c.extra, "driver", DefaultDriver) }
  function Encrypt(c: Connection): string { ExtraOr(c.extra, "Encrypt", DefaultEncrypt) }
  function Trust(c: Connection): string { ExtraOr(c.extra, "TrustServerCertificate", DefaultTrust) }

  /** A key=value attribute of a connection string. */
  type Field = (string, string)

  /** The attributes the string is meant to carry, in order. */
  function Fields(c: Connection): seq<Field> {
    [ ("DRIVER", "{" + Driver(c) + "}"),
      ("SERVER", Show(c.host) + "," + IntToString(PortOrDefault(c.port))),
      ("DATABASE", Show(c.schema)),
      ("UID", Show(c.login)),
      ("PWD", Show(c.password)),
      ("Encrypt", Encrypt(c)),
      ("TrustServerCertificate", Trust(c)) ]
  }

  /** One attribute written as key=value and terminated by ';'. */
  function Attr(f: Field): string {
    f.0 + "=" + f.1 + ";"
  }

  /** The attributes written one after the other. */
  function Render(fs: seq<Field>): string {
    if fs == [] then "" else Attr(fs[0]) + Render(fs[1..])
  }

  /**
   * build_pyodbc_conn_str, once the connection record has been looked up: the f-string
   * "DRIVER={driver};SERVER=host,port;DATABASE=...;UID=...;PWD=...;Encrypt=...;TrustServerCertificate=...;".
   */
  function BuildConnStr(c: Connection): string {
    Render(Fields(c))
  }

  lemma {:induction false} RenderAppend(a: seq<Field>, b: seq<Field>)
    ensures Render(a + b) == Render(a) + Render(b)
  {
    if a == [] {
      assert a + b == b;
    } else {
      assert (a + b)[0] == a[0];
      assert (a + b)[1..] == a[1..] + b;
      RenderAppend(a[1..], b);
      calc {
        Render(a + b);
        Attr(a[0]) + Render(a[1..] + b);
        Attr(a[0]) + (Render(a[1..]) + Render(b));
        (Attr(a[0]) + Render(a[1..])) + Render(b);
      }
    }
  }

  /** The ';'-separated segments of s; a final segment need not be terminated. */
  function Segments(s: string): seq<string>
    decreases |s|
  {
    if s == [] then []
    else
      var i := FirstIndex(s, ';');
      if i == |s| then [s] else [s[..i]] + Segments(s[i + 1..])
  }

  /** A segment split at its first '='; a segment without '=' is a key with an empty value. */
  function SplitPair(seg: string): Field {
    var i := FirstIndex(seg, '=');
    if i < |seg| then (seg[..i], seg[i + 1..]) else (seg, "")
  }

  function SplitPairs(segs: seq<string>): seq<Field> {
    if segs == [] then [] else [SplitPair(segs[0])] + SplitPairs(segs[1..])
  }

  /** How an ODBC driver reads a connection string without braced values. */
  function Parse(s: string): seq<Field> {
    SplitPairs(Segments(s))
  }

  /** Keys free of '=' and ';', values free of ';'. */
  predicate WellFormed(fs: seq<Field>) {
    forall j :: 0 <= j < |fs| ==> '=' !in fs[j].0 && ';' !in fs[j].0 && ';' !in fs[j].1
  }

  lemma SegmentsCons(x: string, y: string)
    requires ';' !in x
    ensures Segments(x + ";" + y) == [x] + Segments(y)
  {
    FirstIndexAfter(x, ';', y);
    var s := x + ";" + y;
    assert s[..|x|] == x;
    assert s[|x| + 1..] == y;
  }

  lemma SplitPairOf(k: string, v: string)
    requires '=' !in k
    ensures SplitPair(k + "=" + v) == (k, v)
  {
    FirstIndexAfter(k, '=', v);
    var s := k + "=" + v;
    assert s[..|k|] == k;
    assert s[|k| + 1..] == v;
  }

  /** The tail of a well-formed list of attributes is well-formed. */
  lemma WellFormedTail(fs: seq<Field>)
    requires fs != [] && WellFormed(fs)
    ensures WellFormed(fs[1..])
  {
    forall j | 0 <= j < |fs| - 1
      ensures '=' !in fs[1..][j].0 && ';' !in fs[1..][j].0 && ';' !in fs[1..][j].1
    {
      assert fs[1..][j] == fs[j + 1];
    }
  }

  /** One attribute followed by more text reads as that attribute, then the text. */
  lemma ParseAttr(f: Field, rest: string)
    requires '=' !in f.0 && ';' !in f.0 && ';' !in f.1
    ensures Parse(Attr(f) + rest) == [f] + Parse(rest)
  {
    var x := f.0 + "=" + f.1;
    assert ';' !in x;
    assert Attr(f) + rest == x + ";" + rest;
    SegmentsCons(x, rest);
    SplitPairOf(f.0, f.1);
  }

  /** Reading a rendered list of attributes followed by more text gives those attributes back first. */
  lemma {:induction false} ParseRenderAppend(fs: seq<Field>, rest: string)
    requires WellFormed(fs)
    ensures Parse(Render(fs) + rest) == fs + Parse(rest)
  {
    if fs == [] {
      assert Render(fs) + rest == rest;
    } else {
      var t := Render(fs[1..]) + rest;
      WellFormedTail(fs);
      calc {
        Parse(Render(fs) + rest);
        { assert Render(fs) + rest == Attr(fs[0]) + t; }
        Parse(Attr(fs[0]) + t);
        { ParseAttr(fs[0], t); }
        [fs[0]] + Parse(t);
        { ParseRenderAppend(fs[1..], rest); }
        [fs[0]] + (fs[1..] + Parse(rest));
        { assert fs == [fs[0]] + fs[1..]; }
        fs + Parse(rest);
      }
    }
  }

  /** A rendered list of well-formed attributes reads back as the same list. */
  lemma ParseRender(fs: seq<Field>)
    requires WellFormed(fs)
    ensures Parse(Render(fs)) == fs
  {
    ParseRenderAppend(fs, "");
    assert Render(fs) + "" == Render(fs);
  }

  lemma NoSemicolonInInt(i: int)
    ensures ';' !in IntToString(i)
  {
    var r := IntToString(i);
    if i >= 0 {
      assert forall k :: 0 <= k < |r| ==> IsDigit(r[k]);
    } else {
      var d := r[1..];
      assert forall k :: 0 <= k < |d| ==> IsDigit(d[k]);
      assert r == "-" + d;
    }
  }

  /** No attribute value of the connection contains ';'. */
  predicate SeparatorFree(c: Connection) {
    && ';' !in Driver(c) && ';' !in Show(c.host) && ';' !in Show(c.schema)
    && ';' !in Show(c.login) && ';' !in Show(c.password)
    && ';' !in Encrypt(c) && ';' !in Trust(c)
  }

  /** No key of the connection string contains '=' or ';'. */
  lemma KeysFree()
    ensures '=' !in "DRIVER" && ';' !in "DRIVER"
    ensures '=' !in "SERVER" && ';' !in "SERVER"
    ensures '=' !in "DATABASE" && ';' !in "DATABASE"
    ensures '=' !in "UID" && ';' !in "UID"
    ensures '=' !in "PWD" && ';' !in "PWD"
    ensures '=' !in "Encrypt" && ';' !in "Encrypt"
  {
  }

  lemma TrustKeyFree()
    ensures '=' !in "TrustServerCertificate" && ';' !in "TrustServerCertificate"
  {
  }

  /** The braced driver and the host,port pair hold no ';' when their parts hold none. */
  lemma ComposedValuesFree(c: Connection)
    requires ';' !in Driver(c) && ';' !in Show(c.host)
    ensures ';' !in "{" + Driver(c) + "}"
    ensures ';' !in Show(c.host) + "," + IntToString(PortOrDefault(c.port))
  {
    NoSemicolonInInt(PortOrDefault(c.port));
  }

  lemma FieldsWellFormed(c: Connection)
    requires SeparatorFree(c)
    ensures WellFormed(Fields(c))
  {
    KeysFree();
    TrustKeyFree();
    ComposedValuesFree(c);
  }

  /**
   * The string lists DRIVER (braced), SERVER (host,port), DATABASE, UID, PWD, Encrypt and
   * TrustServerCertificate, in that order, each terminated by ';' — as long as no value
   * itself contains ';'.
   */
  lemma ConnStrRoundTrip(c: Connection)
    requires SeparatorFree(c)
    ensures Parse(BuildConnStr(c)) == Fields(c)
  {
    FieldsWellFormed(c);
    ParseRender(Fields(c));
  }

  /**
   * Each default applies on its own: a missing driver extra gives the ODBC Driver 18 for
   * SQL Server, a missing or zero port gives 1433, and missing Encrypt and
   * TrustServerCertificate extras give "no" and "yes". The string then opens with the
   * default driver attribute and closes with the two default flags.
   */
  lemma Defaults(c: Connection)
    ensures "driver" !in c.extra ==> Fields(c)[0] == ("DRIVER", "{" + DefaultDriver + "}")
    ensures c.port == None || c.port == Some(0) ==> Fields(c)[1] == ("SERVER", Show(c.host) + ",1433")
    ensures "Encrypt" !in c.extra ==> Fields(c)[5] == ("Encrypt", "no")
    ensures "TrustServerCertificate" !in c.extra ==> Fields(c)[6] == ("TrustServerCertificate", "yes")
    ensures "driver" !in c.extra ==> Attr(("DRIVER", "{" + DefaultDriver + "}")) <= BuildConnStr(c)
    ensures "Encrypt" !in c.extra && "TrustServerCertificate" !in c.extra ==>
      EndsWith(BuildConnStr(c), Attr(("Encrypt", "no")) + Attr(("TrustServerCertificate", "yes")))
  {
    if c.port == None || c.port == Some(0) {
      DefaultPortText(c.port);
      assert Show(c.host) + "," + "1433" == Show(c.host) + ",1433";
    }
    if "driver" !in c.extra {
      DefaultDriverPrefix(c);
    }
    if "Encrypt" !in c.extra && "TrustServerCertificate" !in c.extra {
      DefaultFlagsSuffix(c);
    }
  }

  predicate EndsWith(s: string, t: string) {
    |t| <= |s| && s[|s| - |t|..] == t
  }

  /** The first attribute is written first. */
  lemma DefaultDriverPrefix(c: Connection)
    requires "driver" !in c.extra
    ensures Attr(("DRIVER", "{" + DefaultDriver + "}")) <= BuildConnStr(c)
  {
    var fs := Fields(c);
    assert BuildConnStr(c) == Attr(fs[0]) + Render(fs[1..]);
  }

  /** The last two attributes are written last. */
  lemma DefaultFlagsSuffix(c: Connection)
    requires "Encrypt" !in c.extra && "TrustServerCertificate" !in c.extra
    ensures EndsWith(BuildConnStr(c), Attr(("Encrypt", "no")) + Attr(("TrustServerCertificate", "yes")))
  {
    var fs := Fields(c);
    var t := Attr(fs[5]) + Attr(fs[6]);
    assert fs == fs[..5] + [fs[5], fs[6]];
    RenderAppend(fs[..5], [fs[5], fs[6]]);
    assert Render([fs[5], fs[6]]) == t by {
      assert [fs[5], fs[6]][1..] == [fs[6]];
      assert Render([fs[6]]) == Attr(fs[6]) + Render([]);
    }
    assert BuildConnStr(c) == Render(fs[..5]) + t;
  }

  /** A missing or zero port is written as 1433. */
  lemma DefaultPortText(port: Option<int>)
    requires port == None || port == Some(0)
    ensures IntToString(PortOrDefault(port)) == "1433"
  {
    assert NatToString(1) == "1";
    assert NatToString(14) == "14";
    assert NatToString(143) == "143";
    assert NatToString(1433) == "1433";
  }

  /** An attribute whose value holds ';' is read back cut at that ';'. */
  lemma ValueCutAtSemicolon(head: seq<Field>, k: string, before: string, after: string, more: seq<Field>)
    requires WellFormed(head) && '=' !in k && ';' !in k && ';' !in before
    ensures |Parse(Render(head + [(k, before + ";" + after)] + more))| > |head|
    ensures Parse(Render(head + [(k, before + ";" + after)] + more))[|head|] == (k, before)
  {
    var f := (k, before + ";" + after);
    var x, tail := k + "=" + before, after + ";" + Render(more);
    calc {
      Parse(Render(head + [f] + more));
      { assert head + [f] + more == head + ([f] + more);
        RenderAppend(head, [f] + more); }
      Parse(Render(head) + Render([f] + more));
      { RenderCons(k, before, after, more); }
      Parse(Render(head) + (x + ";" + tail));
      { ParseRenderAppend(head, x + ";" + tail); }
      head + Parse(x + ";" + tail);
      { CutSegment(k, before, tail); }
      head + ([(k, before)] + Parse(tail));
    }
  }

  /** The attribute (k, before;after) followed by more is written as k=before, ';', and the rest. */
  lemma RenderCons(k: string, before: string, after: string, more: seq<Field>)
    ensures Render([(k, before + ";" + after)] + more) == (k + "=" + before) + ";" + (after + ";" + Render(more))
  {
    assert ([(k, before + ";" + after)] + more)[1..] == more;
  }

  /** A segment k=before ended by ';' reads as the attribute (k, before). */
  lemma CutSegment(k: string, before: string, tail: string)
    requires '=' !in k && ';' !in k && ';' !in before
    ensures Parse((k + "=" + before) + ";" + tail) == [(k, before)] + Parse(tail)
  {
    var x := k + "=" + before;
    assert ';' !in x;
    SegmentsCons(x, tail);
    SplitPairOf(k, before);
    assert ([x] + Segments(tail))[1..] == Segments(tail);
  }

  /**
   * Values are written unquoted, so a password containing ';' is cut at it: the driver
   * sees only the part before the ';' as PWD.
   */
  lemma SemicolonInPasswordTruncatesIt(c: Connection, before: string, after: string)
    requires c.password == Some(before + ";" + after)
    requires ';' !in before
    requires ';' !in Driver(c) && ';' !in Show(c.host) && ';' !in Show(c.schema) && ';' !in Show(c.login)
    ensures |Parse(BuildConnStr(c))| > 4
    ensures Parse(BuildConnStr(c))[4] == ("PWD", before)
  {
    KeysFree();
    ComposedValuesFree(c);
    var fs := Fields(c);
    var head := fs[..4];
    assert fs == head + [("PWD", before + ";" + after)] + fs[5..];
    ValueCutAtSemicolon(head, "PWD", before, after, fs[5..]);
  }
}

/** Row keys `{uid}_{session}_{index}`: printing, and parsing by splitting from the right. */
module SessionKeys {
  import opened Outcomes
  import opened Decimals

  /** One output of one session of a prompt. */
  datatype RowId = RowId(uid: string, session: nat, index: nat)

  // ---------------------------------------------------------------- splitting from the right

  /** The position of the last underscore, or -1. */
  function LastUnderscore(s: string): (k: int)
    ensures -1 <= k < |s|
    ensures 0 <= k ==> s[k] == '_'
    ensures forall i :: k < i < |s| ==> s[i] != '_'
  {
    if s == [] then -1
    else if s[|s| - 1] == '_' then |s| - 1
    else LastUnderscore(s[..|s| - 1])
  }

  /** Python's `rsplit("_", n)`. */
  function RSplit(s: string, n: nat): seq<string> {
    var k := LastUnderscore(s);
    if n == 0 || k < 0 then [s] else RSplit(s[..k], n - 1) + [s[k + 1..]]
  }

  lemma {:induction false} LastIs(a: string, b: string)
    requires '_' !in b
    ensures LastUnderscore(a + "_" + b) == |a|
    decreases |b|
  {
    var s := a + "_" + b;
    if b == [] {
      assert s == a + "_";
    } else {
      var front := b[..|b| - 1];
      assert s == (a + "_" + front) + [b[|b| - 1]];
      assert b[|b| - 1] in b && forall c :: c in front ==> c in b;
      LastIs(a, front);
    }
  }

  lemma SplitOnce(a: string, b: string, n: nat)
    requires '_' !in b && 0 < n
    ensures RSplit(a + "_" + b, n) == RSplit(a, n - 1) + [b]
  {
    LastIs(a, b);
    var s := a + "_" + b;
    assert s[..|a|] == a && s[|a| + 1..] == b;
  }

  lemma DecimalPlain(n: nat)
    ensures '_' !in Decimal(n)
  {
    DecimalRoundTrip(n);
  }

  // ---------------------------------------------------------------- keys

  function SessionKey(uid: string, session: nat): string {
    uid + "_" + Decimal(session)
  }

  function PrintKey(r: RowId): string {
    SessionKey(r.uid, r.session) + "_" + Decimal(r.index)
  }

  /** What the consumers make of a key: too few fields, an index that is no number, or a session and an index. */
  datatype Parsed = Malformed | BadIndex | Fields(session: string, index: nat)

  function ParseKey(key: string): Parsed {
    var fields := RSplit(key, 2);
    if |fields| != 3 then Malformed else
    match ParseNat(fields[2])
    case None => BadIndex
    case Some(index) => Fields(fields[0] + "_" + fields[1], index)
  }

  /** Splitting a printed key from the right recovers all three fields, whatever the prompt id contains. */
  lemma KeyFields(r: RowId)
    ensures RSplit(PrintKey(r), 2) == [r.uid, Decimal(r.session), Decimal(r.index)]
    ensures ParseKey(PrintKey(r)) == Fields(SessionKey(r.uid, r.session), r.index)
  {
    DecimalPlain(r.session);
    DecimalPlain(r.index);
    SplitOnce(SessionKey(r.uid, r.session), Decimal(r.index), 2);
    SplitOnce(r.uid, Decimal(r.session), 1);
    assert RSplit(r.uid, 0) == [r.uid];
    DecimalRoundTrip(r.index);
  }

  /** Printed keys are distinct for distinct rows, and session keys for distinct sessions. */
  lemma KeysInjective(r: RowId, s: RowId)
    ensures PrintKey(r) == PrintKey(s) ==> r == s
    ensures SessionKey(r.uid, r.session) == SessionKey(s.uid, s.session) ==> r.uid == s.uid && r.session == s.session
  {
    KeyFields(r);
    KeyFields(s);
    DecimalRoundTrip(r.session);
    DecimalRoundTrip(s.session);
    DecimalRoundTrip(r.index);
    DecimalRoundTrip(s.index);
    if PrintKey(r) == PrintKey(s) {
      var f := RSplit(PrintKey(r), 2);
      assert f[0] == r.uid == s.uid && f[1] == Decimal(r.session) && f[2] == Decimal(r.index);
      assert f[1] == Decimal(s.session) && f[2] == Decimal(s.index);
    }
    if SessionKey(r.uid, r.session) == SessionKey(s.uid, s.session) {
      KeyFields(r.(index := 0));
      KeyFields(s.(index := 0));
      var f := RSplit(PrintKey(r.(index := 0)), 2);
      assert PrintKey(r.(index := 0)) == PrintKey(s.(index := 0));
      assert f[0] == r.uid == s.uid && f[1] == Decimal(r.session) && f[1] == Decimal(s.session);
    }
  }

  /** What follows the last underscore of a printed key is its index. */
  lemma KeyTail(r: RowId)
    ensures var key := PrintKey(r); ParseNat(key[LastUnderscore(key) + 1..]) == Some(r.index)
  {
    hide LastUnderscore, ParseNat, Decimal;
    DecimalPlain(r.index);
    LastIs(SessionKey(r.uid, r.session), Decimal(r.index));
    DecimalRoundTrip(r.index);
    var key := PrintKey(r);
    assert key[LastUnderscore(key) + 1..] == Decimal(r.index);
  }

  /** A prompt id never equals a row key when what follows its last underscore is not a number: then the
      prompt's own entry cannot be confused with a row. */
  lemma PromptIsNoRow(uid: string, r: RowId)
    requires ParseNat(uid[LastUnderscore(uid) + 1..]).None?
    ensures uid != PrintKey(r)
  {
    hide LastUnderscore, ParseNat, PrintKey;
    KeyTail(r);
  }

  // ---------------------------------------------------------------- keys of any form

  function Underscores(s: string): nat {
    if s == [] then 0 else Underscores(s[..|s| - 1]) + if s[|s| - 1] == '_' then 1 else 0
  }

  /** The fields joined by underscores. */
  function Join(fields: seq<string>): string
    requires fields != []
  {
    if |fields| == 1 then fields[0] else Join(fields[..|fields| - 1]) + "_" + fields[|fields| - 1]
  }

  lemma {:induction false} UnderscoresConcat(a: string, b: string)
    ensures Underscores(a + b) == Underscores(a) + Underscores(b)
    decreases |b|
  {
    if b == [] {
      assert a + b == a;
    } else {
      UnderscoresConcat(a, b[..|b| - 1]);
      assert (a + b)[..|a + b| - 1] == a + b[..|b| - 1];
    }
  }

  lemma {:induction false} NoUnderscores(s: string)
    ensures Underscores(s) == 0 <==> '_' !in s
  {
    if s != [] {
      NoUnderscores(s[..|s| - 1]);
      assert s == s[..|s| - 1] + [s[|s| - 1]];
    }
  }

  /** The last underscore splits off a field without one. */
  lemma CutAtLast(s: string)
    requires 0 <= LastUnderscore(s)
    ensures var k := LastUnderscore(s);
            && s == s[..k] + "_" + s[k + 1..] && '_' !in s[k + 1..] && Underscores(s) == Underscores(s[..k]) + 1
  {
    var k := LastUnderscore(s);
    hide LastUnderscore;
    assert s == s[..k] + "_" + s[k + 1..];
    var b := s[k + 1..];
    forall i | 0 <= i < |b| ensures b[i] != '_' { assert b[i] == s[k + 1 + i]; }
    UnderscoresConcat(s[..k] + "_", b);
    UnderscoresConcat(s[..k], "_");
    NoUnderscores(s[k + 1..]);
    OneUnderscore();
  }

  lemma OneUnderscore()
    ensures Underscores("_") == 1
  {
    assert "_"[..0] == "";
  }

  lemma JoinSnoc(front: seq<string>, last: string)
    requires front != []
    ensures Join(front + [last]) == Join(front) + "_" + last
  {
    assert (front + [last])[..|front|] == front;
  }

  ghost predicate TailsPlain(fields: seq<string>) {
    forall i :: 0 < i < |fields| ==> '_' !in fields[i]
  }

  lemma TailsSnoc(front: seq<string>, last: string)
    requires TailsPlain(front) && '_' !in last
    ensures TailsPlain(front + [last])
  {
  }

  lemma Undivided(s: string, n: nat)
    requires n == 0 || LastUnderscore(s) < 0
    ensures RSplit(s, n) == [s] && Join([s]) == s && TailsPlain([s])
  {
  }

  /** Splitting from the right at most n times: the fields join to the string again, all but the first hold no
      underscore, and there are as many as the underscores allow. */
  lemma {:induction false} SplitExactly(s: string, n: nat)
    ensures var fields := RSplit(s, n);
            && fields != [] && Join(fields) == s && TailsPlain(fields)
            && |fields| == 1 + if Underscores(s) < n then Underscores(s) else n
    decreases n
  {
    hide Underscores, LastUnderscore, Join, TailsPlain;
    var k := LastUnderscore(s);
    if n == 0 || k < 0 {
      Undivided(s, n);
      if k < 0 { NoneFound(s); }
    } else {
      CutAtLast(s);
      SplitExactly(s[..k], n - 1);
      var front, last := RSplit(s[..k], n - 1), s[k + 1..];
      JoinSnoc(front, last);
      TailsSnoc(front, last);
    }
  }

  lemma MalformedExactly(key: string)
    ensures ParseKey(key).Malformed? <==> Underscores(key) < 2
  {
    hide Underscores, RSplit, ParseNat, Join;
    SplitExactly(key, 2);
  }

  /** The parts of a key with enough underscores. */
  lemma ParsesTail(key: string)
    requires 2 <= Underscores(key) && 0 <= LastUnderscore(key)
    ensures ParseKey(key) ==
              match ParseNat(key[LastUnderscore(key) + 1..])
              case None => BadIndex
              case Some(index) => Fields(key[..LastUnderscore(key)], index)
  {
    hide Underscores, RSplit, ParseNat, LastUnderscore;
    SplitTwice(key);
  }

  /** A key is malformed exactly if it has fewer than two underscores; its index is bad exactly if what follows
      the last of its underscores is not a run of digits. */
  lemma ParsesExactly(key: string)
    ensures ParseKey(key).Malformed? <==> Underscores(key) < 2
    ensures ParseKey(key).BadIndex? <==>
              2 <= Underscores(key) && (var tail := key[LastUnderscore(key) + 1..]; tail == [] || !Digits(tail))
    ensures ParseKey(key).Fields? ==> key[..LastUnderscore(key)] == ParseKey(key).session
  {
    hide Underscores, LastUnderscore, RSplit, ParseNat, ParseKey, Digits;
    MalformedExactly(key);
    if 2 <= Underscores(key) {
      if LastUnderscore(key) < 0 { NoneFound(key); }
      ReadsExactly(key[LastUnderscore(key) + 1..]);
      ParsesTail(key);
    }
  }

  lemma NoneFound(s: string)
    requires LastUnderscore(s) < 0
    ensures Underscores(s) == 0
  {
    assert '_' !in s;
    NoUnderscores(s);
  }

  /** The three fields of a key with enough underscores. */
  lemma SplitTwice(key: string)
    requires 2 <= Underscores(key) && 0 <= LastUnderscore(key)
    ensures var k := LastUnderscore(key);
            var fields := RSplit(key, 2);
            |fields| == 3 && fields[2] == key[k + 1..] && fields[0] + "_" + fields[1] == key[..k]
  {
    var k := LastUnderscore(key);
    CutAtLast(key);
    if LastUnderscore(key[..k]) < 0 { NoneFound(key[..k]); }
    CutAtLast(key[..k]);
    hide Underscores, LastUnderscore;
    var j := LastUnderscore(key[..k]);
    assert RSplit(key[..k][..j], 0) == [key[..k][..j]];
    assert RSplit(key[..k], 1) == [key[..k][..j]] + [key[..k][j + 1..]];
    assert RSplit(key, 2) == RSplit(key[..k], 1) + [key[k + 1..]];
  }

  /** A printed key, spelled out. */
  lemma KeySpelled()
    ensures PrintKey(RowId("a_b", 2, 10)) == "a_b_2_10"
  {
    assert Decimal(2) == "2" && Decimal(10) == "10";
    assert "a_b" + "_" + "2" == "a_b_2";
  }
}

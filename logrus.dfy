/** The console hook for the emulator's log (helpers/logrus_helper.go): each
    log entry becomes one console line, the message padded to 45 columns and
    followed by the entry's fields in ascending key order, routed to the
    console's error, warning, debug or plain output by its level. */
module Helpers {
  import opened Common

  // ---- Go's string order ----

  /** Go's `<` on strings: byte-wise lexicographic order, which on UTF-8 is
      the order of code points. */
  predicate StrLess(a: string, b: string)
    decreases |a|
  {
    if |a| == 0 then |b| > 0
    else if |b| == 0 then false
    else if a[0] != b[0] then a[0] < b[0]
    else StrLess(a[1..], b[1..])
  }

  lemma {:induction false} StrLessIrreflexive(a: string)
    ensures !StrLess(a, a)
    decreases |a|
  {
    if |a| > 0 {
      StrLessIrreflexive(a[1..]);
    }
  }

  lemma {:induction false} StrLessTransitive(a: string, b: string, c: string)
    requires StrLess(a, b) && StrLess(b, c)
    ensures StrLess(a, c)
    decreases |a|
  {
    if |a| > 0 && |b| > 0 && |c| > 0 && a[0] == b[0] && b[0] == c[0] {
      StrLessTransitive(a[1..], b[1..], c[1..]);
    }
  }

  lemma {:induction false} StrLessTotal(a: string, b: string)
    requires a != b
    ensures StrLess(a, b) || StrLess(b, a)
    decreases |a|
  {
    if |a| > 0 && |b| > 0 && a[0] == b[0] {
      assert a == [a[0]] + a[1..] && b == [b[0]] + b[1..];
      StrLessTotal(a[1..], b[1..]);
    }
  }

  lemma StrLessAsymmetric(a: string, b: string)
    requires StrLess(a, b)
    ensures !StrLess(b, a)
  {
    if StrLess(b, a) {
      StrLessTransitive(a, b, a);
      StrLessIrreflexive(a);
    }
  }

  /** The empty string comes before every other. */
  lemma EmptyIsLeast(a: string)
    requires a != ""
    ensures StrLess("", a)
  {
  }

  /** Sorted with no repeats: how `sort.Strings` leaves the keys of a map. */
  predicate StrictlySorted(s: seq<string>)
  {
    forall i, j :: 0 <= i < j < |s| ==> StrLess(s[i], s[j])
  }

  /** Puts `x` into its place in a sorted sequence that lacks it. */
  function Insert(s: seq<string>, x: string): (r: seq<string>)
    requires StrictlySorted(s) && x !in s
    ensures StrictlySorted(r) && |r| == |s| + 1
    ensures forall y :: y in r <==> y in s || y == x
  {
    if |s| == 0 then [x]
    else if StrLess(x, s[0]) then
      assert forall j :: 0 <= j < |s| ==> StrLess(x, s[j]) by {
        forall j | 0 < j < |s| ensures StrLess(x, s[j]) {
          StrLessTransitive(x, s[0], s[j]);
        }
      }
      [x] + s
    else
      StrLessTotal(x, s[0]);
      var rest := Insert(s[1..], x);
      assert forall y :: y in rest ==> StrLess(s[0], y);
      [s[0]] + rest
  }

  /** Two sorted sequences with the same elements are the same sequence:
      the order the keys were collected in does not matter. */
  lemma {:induction false} SortedUnique(a: seq<string>, b: seq<string>)
    requires StrictlySorted(a) && StrictlySorted(b)
    requires forall y :: y in a <==> y in b
    ensures a == b
    decreases |a|
  {
    if |b| > 0 {
      assert b[0] in b;
    }
    if |a| > 0 {
      assert a[0] in a;
      assert |b| > 0;
      if a[0] != b[0] {
        assert b[0] in b;
        var i :| 0 <= i < |a| && a[i] == b[0];
        var j :| 0 <= j < |b| && b[j] == a[0];
        assert StrLess(a[0], b[0]);
        assert StrLess(b[0], a[0]);
        StrLessAsymmetric(a[0], b[0]);
      }
      forall y
        ensures y in a[1..] <==> y in b[1..]
      {
        if y in a[1..] {
          var i :| 1 <= i < |a| && a[i] == y;
          assert StrLess(a[0], y);
          StrLessIrreflexive(y);
          assert y in b;
        }
        if y in b[1..] {
          var j :| 1 <= j < |b| && b[j] == y;
          assert StrLess(b[0], y);
          StrLessIrreflexive(y);
          assert y in a;
        }
      }
      SortedUnique(a[1..], b[1..]);
      assert a == [a[0]] + a[1..] && b == [b[0]] + b[1..];
    }
  }

  /** The keys of a set in ascending order. */
  ghost function SortedKeys(keys: set<string>): (r: seq<string>)
    ensures StrictlySorted(r) && |r| == |keys|
    ensures forall y :: y in r <==> y in keys
    decreases keys
  {
    if keys == {} then []
    else
      var k :| k in keys;
      Insert(SortedKeys(keys - {k}), k)
  }

  // ---- the fields of an entry ----

  /** One field: `[k=v] `, or `[k] ` when the value prints empty; an empty
      key prints nothing. */
  function FieldText(k: string, v: string): (r: string)
    ensures k == "" <==> r == ""
    ensures k != "" ==> |r| >= 4 && r[0] == '[' && r[|r| - 2..] == "] "
  {
    if k == "" then ""
    else "[" + k + (if v != "" then "=" + v else "") + "] "
  }

  /** The fields for `keys`, in that order. */
  function FieldsText(keys: seq<string>, data: map<string, string>): string
    requires forall k :: k in keys ==> k in data
  {
    if |keys| == 0 then "" else FieldText(keys[0], data[keys[0]]) + FieldsText(keys[1..], data)
  }

  lemma {:induction false} FieldsTextAppend(a: seq<string>, b: seq<string>, data: map<string, string>)
    requires forall k :: k in a + b ==> k in data
    ensures FieldsText(a + b, data) == FieldsText(a, data) + FieldsText(b, data)
    decreases |a|
  {
    if |a| > 0 {
      assert (a + b)[0] == a[0];
      assert (a + b)[1..] == a[1..] + b;
      FieldsTextAppend(a[1..], b, data);
    } else {
      assert a + b == b;
    }
  }

  /** Only the values of the listed keys matter. */
  lemma {:induction false} FieldsTextAgree(keys: seq<string>, data: map<string, string>, other: map<string, string>)
    requires forall k :: k in keys ==> k in data && k in other && data[k] == other[k]
    ensures FieldsText(keys, data) == FieldsText(keys, other)
    decreases |keys|
  {
    if |keys| > 0 {
      FieldsTextAgree(keys[1..], data, other);
    }
  }

  /** The text after an entry's message: nothing when fields are switched
      off or there are none, otherwise three spaces and the colored, trimmed
      fields in ascending key order. */
  ghost function DataText(noData: bool, data: map<string, string>, color: string -> string): (r: string)
    ensures r != "" ==> "   " <= r
  {
    if noData || |data| == 0 then ""
    else "   " + color(TrimSpace(FieldsText(SortedKeys(data.Keys), data)))
  }

  /** The data text is empty exactly when fields are switched off or the
      entry has none. */
  lemma DataTextEmptyIff(noData: bool, data: map<string, string>, color: string -> string)
    ensures DataText(noData, data, color) == "" <==> noData || data == map[]
  {
    if !noData && data != map[] {
      var k :| k in data;
      assert |data| > 0;
    }
  }

  /** The empty string goes in front of sorted non-empty strings. */
  lemma LeastFirst(tail: seq<string>)
    requires StrictlySorted(tail) && "" !in tail
    ensures StrictlySorted([""] + tail)
  {
    var keys := [""] + tail;
    forall i, j | 0 <= i < j < |keys| ensures StrLess(keys[i], keys[j]) {
      assert keys[j] == tail[j - 1];
      if i == 0 {
        assert keys[j] in tail;
        EmptyIsLeast(keys[j]);
      } else {
        assert keys[i] == tail[i - 1];
      }
    }
  }

  /** A field with the empty key changes nothing: the entry prints as if it
      did not have it. */
  lemma DataTextIgnoresEmptyKey(data: map<string, string>, color: string -> string)
    requires "" in data && |data| > 1
    ensures DataText(false, data, color) == DataText(false, data - {""}, color)
  {
    var rest := data - {""};
    assert |rest| > 0 by {
      assert |rest.Keys| == |data.Keys - {""}| == |data| - 1;
    }
    FieldsIgnoreEmptyKey(data);
  }

  lemma FieldsIgnoreEmptyKey(data: map<string, string>)
    requires "" in data
    ensures FieldsText(SortedKeys(data.Keys), data) == FieldsText(SortedKeys((data - {""}).Keys), data - {""})
  {
    var rest := data - {""};
    assert rest.Keys == data.Keys - {""};
    var tail := SortedKeys(rest.Keys);
    var keys := [""] + tail;
    LeastFirst(tail);
    SortedUnique(keys, SortedKeys(data.Keys));
    assert keys[0] == "" && keys[1..] == tail;
    FieldsTextAgree(tail, data, rest);
    assert FieldsText(keys, data) == FieldText("", data[""]) + FieldsText(tail, data);
  }

  /** `data`: collects the keys of the fields, sorts them, and writes each
      field in turn, skipping the empty key. */
  method Data(noData: bool, data: map<string, string>, color: string -> string) returns (r: string)
    ensures r == DataText(noData, data, color)
  {
    if noData || |data| == 0 {
      return "";
    }
    var keys: seq<string> := [];
    var rest := data.Keys;
    while rest != {}
      invariant forall y :: y in keys ==> y !in rest
      invariant forall y :: y in data ==> y in keys || y in rest
      invariant forall y :: y in keys || y in rest ==> y in data
      invariant forall i, j :: 0 <= i < j < |keys| ==> keys[i] != keys[j]
      decreases rest
    {
      var k :| k in rest;
      keys := keys + [k];
      rest := rest - {k};
    }
    var sorted := SortStrings(keys);
    SortedUnique(sorted, SortedKeys(data.Keys));
    var sw := WriteFields(sorted, data);
    r := "   " + color(TrimSpace(sw));
  }

  /** The loop of `data` that writes the fields of the sorted keys. */
  method WriteFields(sorted: seq<string>, data: map<string, string>) returns (sw: string)
    requires forall k :: k in sorted ==> k in data
    ensures sw == FieldsText(sorted, data)
  {
    sw := "";
    var i := 0;
    while i < |sorted|
      invariant 0 <= i <= |sorted|
      invariant sw == FieldsText(sorted[..i], data)
    {
      var k := sorted[i];
      FieldsTextAppend(sorted[..i], [k], data);
      assert sorted[..i + 1] == sorted[..i] + [k];
      assert FieldsText([k], data) == FieldText(k, data[k]) + FieldsText([], data);
      if k != "" {
        sw := WriteField(sw, k, data[k]);
      }
      i := i + 1;
    }
    assert sorted[..i] == sorted;
  }

  /** Writes one field with a non-empty key after `sw`. */
  method WriteField(sw: string, k: string, val: string) returns (out: string)
    requires k != ""
    ensures out == sw + FieldText(k, val)
  {
    out := sw + "[";
    out := out + k;
    ghost var tag := if val != "" then "=" + val else "";
    if val != "" {
      out := out + "=";
      out := out + val;
    }
    assert out == sw + ("[" + k + tag);
    out := out + "] ";
  }

  /** `sort.Strings` on keys that are all different. */
  method SortStrings(keys: seq<string>) returns (sorted: seq<string>)
    requires forall i, j :: 0 <= i < j < |keys| ==> keys[i] != keys[j]
    ensures StrictlySorted(sorted)
    ensures forall y :: y in sorted <==> y in keys
  {
    sorted := [];
    var i := 0;
    while i < |keys|
      invariant 0 <= i <= |keys|
      invariant StrictlySorted(sorted)
      invariant forall y :: y in sorted <==> y in keys[..i]
    {
      assert keys[i] !in keys[..i];
      sorted := Insert(sorted, keys[i]);
      assert keys[..i + 1] == keys[..i] + [keys[i]];
      i := i + 1;
    }
    assert keys[..i] == keys;
  }

  // ---- the hook ----

  /** logrus levels, most severe first. */
  const PanicLevel: nat := 0
  const FatalLevel: nat := 1
  const ErrorLevel: nat := 2
  const WarnLevel: nat := 3
  const InfoLevel: nat := 4
  const DebugLevel: nat := 5
  const TraceLevel: nat := 6

  /** The console output a line goes to. */
  datatype Sink = Errorf | Warningf | Debugf | Printf

  /** A log entry: its level, message and fields (the values as `fmt.Sprint`
      prints them). */
  datatype Entry = Entry(level: nat, message: string, data: map<string, string>)

  /** The hook: whether fields are left out of the line. */
  datatype LogrusConsoleHook = LogrusConsoleHook(noData: bool)
  {
    /** The hook fires on every level. */
    function Levels(): (levels: seq<nat>)
      ensures |levels| == TraceLevel + 1
      ensures forall i :: 0 <= i < |levels| ==> levels[i] == i
    {
      [PanicLevel, FatalLevel, ErrorLevel, WarnLevel, InfoLevel, DebugLevel, TraceLevel]
    }
  }

  /** Panic, fatal and error go to the error output, warnings to the
      warning output, debug and trace to the debug output, info and any
      unknown level to the plain output. */
  function Route(level: nat): (s: Sink)
    ensures s == Errorf <==> level <= ErrorLevel
    ensures s == Warningf <==> level == WarnLevel
    ensures s == Debugf <==> level == DebugLevel || level == TraceLevel
    ensures s == Printf <==> level == InfoLevel || level > TraceLevel
  {
    if level == PanicLevel || level == FatalLevel || level == ErrorLevel then Errorf
    else if level == WarnLevel then Warningf
    else if level == InfoLevel then Printf
    else if level == DebugLevel || level == TraceLevel then Debugf
    else Printf
  }

  /** Route is monotone in severity: a more severe level never goes to a
      less severe output among error, warning and debug. */
  lemma RouteBySeverity(l1: nat, l2: nat)
    requires l1 <= l2 <= TraceLevel && l1 != InfoLevel && l2 != InfoLevel
    ensures Route(l2) == Errorf ==> Route(l1) == Errorf
    ensures Route(l1) == Debugf ==> Route(l2) == Debugf
  {
  }

  /** `%-45s`: the text left-justified in 45 columns, never cut. */
  function PadRight(s: string, width: nat): (r: string)
    ensures |r| == if |s| < width then width else |s|
    ensures r[..|s|] == s
    ensures forall i :: |s| <= i < |r| ==> r[i] == ' '
    decreases width - |s|
  {
    if |s| >= width then s else PadRight(s + " ", width)
  }

  const MessageWidth: nat := 45

  /** `Fire`: the line for an entry and the output it goes to; it never
      fails. */
  method Fire(h: LogrusConsoleHook, e: Entry, color: string -> string) returns (sink: Sink, msg: string, err: Option<string>)
    ensures sink == Route(e.level)
    ensures msg == PadRight(e.message, MessageWidth) + DataText(h.noData, e.data, color)
    ensures err == None
  {
    var data := Data(h.noData, e.data, color);
    msg := PadRight(e.message, MessageWidth) + data;
    sink := Route(e.level);
    err := None;
  }
}

/** The field decoder shared by the three quote parsers in dist/stock.js:
    `data.split('~')`, the `getField` accessor and the `parseNum` accessor. */
module Fields {
  import opened Wrappers

  /** The field separator of the quote payload. */
  const Tilde: char := '~'

  /** JavaScript's `parseFloat` and `parseInt`, left uninterpreted: the model
      takes them as parameters and never looks inside. `None` is NaN. */
  datatype Numerics = Numerics(parseFloat: string -> Option<real>, parseInt: string -> Option<int>)

  /** The number of occurrences of `c` in `s`. */
  function Occurrences(s: string, c: char): nat {
    if s == [] then 0 else (if s[0] == c then 1 else 0) + Occurrences(s[1..], c)
  }

  /** `s.split(sep)` for a one-character separator: every separator ends a
      field, empty fields are kept in place, and there is always at least one
      field. */
  function Split(s: string, sep: char): (fields: seq<string>)
    ensures |fields| >= 1
    ensures forall i :: 0 <= i < |fields| ==> sep !in fields[i]
  {
    if s == [] then [[]]
    else
      var rest := Split(s[1..], sep);
      if s[0] == sep then [[]] + rest
      else [[s[0]] + rest[0]] + rest[1..]
  }

  /** `fields.join(sep)`. */
  function Join(fields: seq<string>, sep: char): string
    requires |fields| >= 1
  {
    if |fields| == 1 then fields[0] else fields[0] + [sep] + Join(fields[1..], sep)
  }

  /** Splitting keeps every field: one more field than separators. */
  lemma {:induction false} SplitCount(s: string, sep: char)
    ensures |Split(s, sep)| == Occurrences(s, sep) + 1
  {
    if s != [] {
      SplitCount(s[1..], sep);
    }
  }

  /** Splitting loses nothing: joining the fields back gives the payload. */
  lemma {:induction false} JoinSplit(s: string, sep: char)
    ensures Join(Split(s, sep), sep) == s
  {
    if s != [] {
      var rest := Split(s[1..], sep);
      JoinSplit(s[1..], sep);
      if s[0] == sep {
        assert Split(s, sep)[1..] == rest;
        assert s == [sep] + s[1..];
      } else {
        var fields := Split(s, sep);
        if |rest| == 1 {
          assert fields == [[s[0]] + rest[0]];
        } else {
          assert fields[1..] == rest[1..];
          assert Join(fields, sep) == [s[0]] + rest[0] + [sep] + Join(rest[1..], sep);
        }
      }
    }
  }

  /** Splitting a field that has no separator followed by one more separator. */
  lemma {:induction false} SplitCons(a: string, sep: char, b: string)
    requires sep !in a
    ensures Split(a + [sep] + b, sep) == [a] + Split(b, sep)
  {
    if a == [] {
      assert a + [sep] + b == [sep] + b;
      assert ([sep] + b)[1..] == b;
    } else {
      var s := a + [sep] + b;
      assert s[0] == a[0] && s[1..] == a[1..] + [sep] + b;
      SplitCons(a[1..], sep, b);
      assert [a[0]] + a[1..] == a;
    }
  }

  /** Splitting a field that has no separator. */
  lemma {:induction false} SplitAtom(a: string, sep: char)
    requires sep !in a
    ensures Split(a, sep) == [a]
  {
    if a != [] {
      SplitAtom(a[1..], sep);
      assert [a[0]] + a[1..] == a;
    }
  }

  /** Joining fields that contain no separator and splitting again gives the
      same fields back. */
  lemma {:induction false} SplitJoin(fields: seq<string>, sep: char)
    requires |fields| >= 1
    requires forall i :: 0 <= i < |fields| ==> sep !in fields[i]
    ensures Split(Join(fields, sep), sep) == fields
  {
    if |fields| == 1 {
      SplitAtom(fields[0], sep);
    } else {
      SplitJoin(fields[1..], sep);
      SplitCons(fields[0], sep, Join(fields[1..], sep));
      assert [fields[0]] + fields[1..] == fields;
    }
  }

  /** A character that is neither the separator nor in any field does not
      occur in the joined text. */
  lemma {:induction false} JoinAvoids(fields: seq<string>, sep: char, c: char)
    requires |fields| >= 1 && c != sep
    requires forall i :: 0 <= i < |fields| ==> c !in fields[i]
    ensures c !in Join(fields, sep)
  {
    if |fields| > 1 {
      JoinAvoids(fields[1..], sep, c);
    }
  }

  /** `fields[idx] || ''`: the field at `idx`, or the empty string past the
      end of the field list. */
  function GetField(fields: seq<string>, idx: nat): (f: string)
    ensures idx < |fields| ==> f == fields[idx]
    ensures idx >= |fields| ==> f == ""
  {
    if idx < |fields| then fields[idx] else ""
  }

  /** `val ? parseFloat(val) || defaultVal : defaultVal`: the parsed field
      when it is present and parses to a number other than NaN or 0, the
      default otherwise. It never fails. */
  function ParseNum(num: Numerics, fields: seq<string>, idx: nat, fallback: real): (x: real)
    ensures var val := GetField(fields, idx);
      val != "" && num.parseFloat(val).Some? && num.parseFloat(val).value != 0.0 ==>
        x == num.parseFloat(val).value
    ensures var val := GetField(fields, idx);
      val == "" || num.parseFloat(val) == None || num.parseFloat(val) == Some(0.0) ==> x == fallback
  {
    var val := GetField(fields, idx);
    if val == "" then fallback
    else
      match num.parseFloat(val)
      case None => fallback
      case Some(v) => if v == 0.0 then fallback else v
  }
}

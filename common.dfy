/** Small value types and sequence/string helpers shared by the ampi model:
    Python's `str.split`/`str.join`, `os.path.basename`, `str(int)`/`int(str)`
    on plain decimal digits, `startswith` and substring search. */
module Common {

  datatype Option<T> = None | Some(value: T)

  /** A byte as read from a socket or a pipe. */
  newtype byte = b: int | 0 <= b < 256

  const NEWLINE: byte := 10
  const CARRIAGE_RETURN: byte := 13

  /** The bytes of an ASCII text (every character below 256). */
  function Ascii(s: string): (r: seq<byte>)
    requires forall i :: 0 <= i < |s| ==> s[i] as int < 256
    ensures |r| == |s|
    ensures forall i :: 0 <= i < |s| ==> r[i] as int == s[i] as int
  {
    seq(|s|, i requires 0 <= i < |s| => s[i] as int as byte)
  }

  // ---------------------------------------------------------------------
  // split / join

  /** `sep.join(parts)`. */
  function Join<T>(parts: seq<seq<T>>, sep: T): seq<T>
    requires |parts| >= 1
  {
    if |parts| == 1 then parts[0] else parts[0] + [sep] + Join(parts[1..], sep)
  }

  /** `s.split(sep)`: the maximal pieces between occurrences of `sep`; joining
      them back with `sep` gives `s`. */
  function Split<T(==)>(s: seq<T>, sep: T): (parts: seq<seq<T>>)
    ensures |parts| >= 1
    ensures forall i :: 0 <= i < |parts| ==> sep !in parts[i]
    ensures Join(parts, sep) == s
    decreases |s|
  {
    if s == [] then [[]]
    else
      var rest := Split(s[1..], sep);
      if s[0] == sep then
        assert Join([[]] + rest, sep) == [sep] + Join(rest, sep) by {
          assert ([[]] + rest)[1..] == rest;
        }
        assert s == [sep] + s[1..];
        [[]] + rest
      else
        var parts := [[s[0]] + rest[0]] + rest[1..];
        assert parts[1..] == rest[1..];
        assert Join(parts, sep) == [s[0]] + Join(rest, sep);
        assert s == [s[0]] + s[1..];
        parts
  }

  /** Splitting a piece free of `sep` gives the piece alone. */
  lemma {:induction false} SplitWithoutSeparator<T>(s: seq<T>, sep: T)
    requires sep !in s
    ensures Split(s, sep) == [s]
    decreases |s|
  {
    if s != [] {
      assert sep !in s[1..];
      SplitWithoutSeparator(s[1..], sep);
    }
  }

  /** A leading piece free of `sep`, then `sep`, splits off as one part. */
  lemma {:induction false} SplitAfterPiece<T>(x: seq<T>, sep: T, rest: seq<T>)
    requires sep !in x
    ensures Split(x + [sep] + rest, sep) == [x] + Split(rest, sep)
    decreases |x|
  {
    var s := x + [sep] + rest;
    if x == [] {
      assert s[1..] == rest;
    } else {
      assert s[1..] == x[1..] + [sep] + rest;
      assert sep !in x[1..];
      SplitAfterPiece(x[1..], sep, rest);
      assert [x[0]] + x[1..] == x;
    }
  }

  /** Round trip: pieces free of `sep` are recovered by splitting their join. */
  lemma {:induction false} SplitJoin<T>(parts: seq<seq<T>>, sep: T)
    requires |parts| >= 1
    requires forall i :: 0 <= i < |parts| ==> sep !in parts[i]
    ensures Split(Join(parts, sep), sep) == parts
    decreases |parts|
  {
    if |parts| == 1 {
      SplitWithoutSeparator(parts[0], sep);
    } else {
      SplitJoin(parts[1..], sep);
      SplitAfterPiece(parts[0], sep, Join(parts[1..], sep));
      assert [parts[0]] + parts[1..] == parts;
    }
  }

  /** Splitting at a separator splits the two sides independently. */
  lemma {:induction false} SplitConcat<T>(x: seq<T>, sep: T, y: seq<T>)
    ensures Split(x + [sep] + y, sep) == Split(x, sep) + Split(y, sep)
    decreases |x|
  {
    var s := x + [sep] + y;
    if x == [] {
      assert s[1..] == y;
    } else {
      assert s[0] == x[0] && s[1..] == x[1..] + [sep] + y;
      SplitConcat(x[1..], sep, y);
    }
  }

  /** The bytes of the given lines, each followed by `sep`. */
  function Terminated<T>(lines: seq<seq<T>>, sep: T): seq<T>
  {
    if lines == [] then [] else Terminated(lines[..|lines| - 1], sep) + lines[|lines| - 1] + [sep]
  }

  lemma {:induction false} TerminatedAppend<T>(lines: seq<seq<T>>, more: seq<seq<T>>, sep: T)
    ensures Terminated(lines + more, sep) == Terminated(lines, sep) + Terminated(more, sep)
    decreases |more|
  {
    if more != [] {
      var all := lines + more;
      assert all[..|all| - 1] == lines + more[..|more| - 1];
      TerminatedAppend(lines, more[..|more| - 1], sep);
    } else {
      assert lines + more == lines;
    }
  }

  /** The complete lines of `data` (each was followed by a newline) and the
      partial line after the last newline. */
  function CompleteLines<T(==)>(data: seq<T>, sep: T): (lines: seq<seq<T>>)
  {
    var parts := Split(data, sep); parts[..|parts| - 1]
  }

  function PartialLine<T(==)>(data: seq<T>, sep: T): (rest: seq<T>)
  {
    var parts := Split(data, sep); parts[|parts| - 1]
  }

  /** Framing: the complete lines, each with its terminator, followed by the
      partial line, are exactly the data; no line holds a separator. */
  lemma {:induction false} FramingIsExact<T>(data: seq<T>, sep: T)
    ensures Terminated(CompleteLines(data, sep), sep) + PartialLine(data, sep) == data
    ensures sep !in PartialLine(data, sep)
    ensures forall i :: 0 <= i < |CompleteLines(data, sep)| ==> sep !in CompleteLines(data, sep)[i]
    ensures sep !in data ==> CompleteLines(data, sep) == []
  {
    var parts := Split(data, sep);
    JoinIsTerminated(parts, sep);
    if sep !in data {
      SplitWithoutSeparator(data, sep);
    }
  }

  lemma {:induction false} JoinIsTerminated<T>(parts: seq<seq<T>>, sep: T)
    requires |parts| >= 1
    ensures Join(parts, sep) == Terminated(parts[..|parts| - 1], sep) + parts[|parts| - 1]
    decreases |parts|
  {
    if |parts| > 1 {
      var tail := parts[1..];
      JoinIsTerminated(tail, sep);
      assert tail[..|tail| - 1] == parts[1..|parts| - 1];
      assert parts[..|parts| - 1] == [parts[0]] + parts[1..|parts| - 1];
      TerminatedAppend([parts[0]], parts[1..|parts| - 1], sep);
      assert Terminated([parts[0]], sep) == parts[0] + [sep] by {
        assert [parts[0]][..0] == [];
      }
      assert parts[|parts| - 1] == tail[|tail| - 1];
    }
  }

  // ---------------------------------------------------------------------
  // strings

  predicate StartsWith<T(==)>(s: seq<T>, prefix: seq<T>)
  {
    |prefix| <= |s| && s[..|prefix|] == prefix
  }

  /** Python's `sub in s` for strings and bytes. */
  predicate Contains<T(==)>(s: seq<T>, sub: seq<T>)
    decreases |s|
  {
    StartsWith(s, sub) || (s != [] && Contains(s[1..], sub))
  }

  /** `os.path.basename`: the text after the last '/'. */
  function Basename(path: string): (b: string)
    ensures '/' !in b
    ensures |b| <= |path| && path[|path| - |b|..] == b
    ensures |b| < |path| ==> path[|path| - |b| - 1] == '/'
    decreases |path|
  {
    if path == [] || path[|path| - 1] == '/' then []
    else Basename(path[..|path| - 1]) + [path[|path| - 1]]
  }

  /** A name without '/' is its own base name. */
  lemma {:induction false} BasenameOfPlainName(s: string)
    requires '/' !in s
    ensures Basename(s) == s
    decreases |s|
  {
    if s != [] {
      assert '/' !in s[..|s| - 1];
      BasenameOfPlainName(s[..|s| - 1]);
      assert s[..|s| - 1] + [s[|s| - 1]] == s;
    }
  }

  /** The base name of a path is what follows its last '/'. */
  lemma {:induction false} BasenameAfterSlash(dir: string, name: string)
    requires '/' !in name
    ensures Basename(dir + "/" + name) == name
    decreases |name|
  {
    if name == [] {
      assert (dir + "/" + name)[|dir + "/" + name| - 1] == '/';
    } else {
      var path := dir + "/" + name;
      assert path[..|path| - 1] == dir + "/" + name[..|name| - 1];
      assert '/' !in name[..|name| - 1];
      BasenameAfterSlash(dir, name[..|name| - 1]);
      assert name[..|name| - 1] + [name[|name| - 1]] == name;
    }
  }

  /** `s.replace(a, b)` for single characters. */
  function ReplaceChar(s: string, a: char, b: char): (r: string)
    ensures |r| == |s|
    ensures forall i :: 0 <= i < |s| ==> r[i] == (if s[i] == a then b else s[i])
  {
    seq(|s|, i requires 0 <= i < |s| => if s[i] == a then b else s[i])
  }

  // ---------------------------------------------------------------------
  // decimal numerals

  predicate IsDigit(c: char) { '0' <= c <= '9' }

  predicate IsDigits(s: string) { forall i :: 0 <= i < |s| ==> IsDigit(s[i]) }

  /** `str(n)` for a natural number. */
  function NatToString(n: nat): (s: string)
    ensures |s| >= 1 && IsDigits(s)
    ensures n >= 10 ==> |s| >= 2
  {
    if n < 10 then [('0' as int + n) as char]
    else NatToString(n / 10) + [('0' as int + n % 10) as char]
  }

  /** `str(i)` for any integer. */
  function IntToString(i: int): string
  {
    if i < 0 then "-" + NatToString(-i) else NatToString(i)
  }

  /** `int(s)` for a string of decimal digits. */
  function ParseDigits(s: string): (n: nat)
    requires IsDigits(s)
  {
    if s == [] then 0 else ParseDigits(s[..|s| - 1]) * 10 + (s[|s| - 1] as int - '0' as int)
  }

  /** Round trip: reading back the numeral of `n` gives `n`. */
  lemma {:induction false} ParseNatToString(n: nat)
    ensures ParseDigits(NatToString(n)) == n
  {
    if n >= 10 {
      var s := NatToString(n);
      ParseNatToString(n / 10);
      assert s[..|s| - 1] == NatToString(n / 10);
    }
  }

  /** Distinct numbers have distinct numerals. */
  lemma NatToStringInjective(a: nat, b: nat)
    ensures NatToString(a) == NatToString(b) ==> a == b
  {
    ParseNatToString(a);
    ParseNatToString(b);
  }
}

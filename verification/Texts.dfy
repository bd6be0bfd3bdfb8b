/** The few string functions of Go's strings and strconv packages that the
    models need. */
module Texts {
  import opened Wrappers

  /** strings.Split with a one-character separator: never empty. */
  function Split(s: string, sep: char): (parts: seq<string>)
    ensures |parts| >= 1
    ensures forall p <- parts :: sep !in p
  {
    if s == "" then [""]
    else
      var rest := Split(s[1..], sep);
      if s[0] == sep then [""] + rest
      else [[s[0]] + rest[0]] + rest[1..]
  }

  /** strings.Join with a one-character separator. */
  function Join(parts: seq<string>, sep: char): string {
    if parts == [] then ""
    else if |parts| == 1 then parts[0]
    else parts[0] + [sep] + Join(parts[1..], sep)
  }

  lemma {:induction false} SplitWord(s: string, sep: char)
    requires sep !in s
    ensures Split(s, sep) == [s]
  {
    if s != "" {
      SplitWord(s[1..], sep);
      assert [s[0]] + s[1..] == s;
    }
  }

  lemma {:induction false} SplitAfterWord(word: string, s: string, sep: char)
    requires sep !in word
    ensures Split(word + [sep] + s, sep) == [word] + Split(s, sep)
  {
    var all := word + [sep] + s;
    if word == "" {
      assert all[1..] == s;
    } else {
      assert all[1..] == word[1..] + [sep] + s;
      SplitAfterWord(word[1..], s, sep);
      assert [word[0]] + word[1..] == word;
    }
  }

  /** Splitting undoes joining, if no part contains the separator. */
  lemma {:induction false} SplitJoin(parts: seq<string>, sep: char)
    requires parts != [] && forall p <- parts :: sep !in p
    ensures Split(Join(parts, sep), sep) == parts
  {
    if |parts| == 1 {
      SplitWord(parts[0], sep);
    } else {
      SplitAfterWord(parts[0], Join(parts[1..], sep), sep);
      SplitJoin(parts[1..], sep);
    }
  }

  /** Joining undoes splitting. */
  lemma {:induction false} JoinSplit(s: string, sep: char)
    ensures Join(Split(s, sep), sep) == s
  {
    if s != "" {
      JoinSplit(s[1..], sep);
      var rest := Split(s[1..], sep);
      if s[0] == sep {
        assert ([""] + rest)[1..] == rest;
      } else {
        JoinLonger(s[0], rest, sep);
      }
    }
  }

  lemma JoinLonger(c: char, parts: seq<string>, sep: char)
    requires parts != []
    ensures Join([[c] + parts[0]] + parts[1..], sep) == [c] + Join(parts, sep)
  {
    assert ([[c] + parts[0]] + parts[1..])[1..] == parts[1..];
  }

  lemma {:induction false} JoinLast(parts: seq<string>, sep: char)
    requires |parts| >= 2
    ensures Join(parts, sep) == Join(parts[..|parts| - 1], sep) + [sep] + parts[|parts| - 1]
  {
    if |parts| > 2 {
      JoinLast(parts[1..], sep);
      assert parts[1..][..|parts| - 2] == parts[..|parts| - 1][1..];
    } else {
      assert parts[1..] == [parts[1]];
    }
  }

  lemma {:induction false} SplitBoth(s: string, t: string, sep: char)
    ensures Split(s + [sep] + t, sep) == Split(s, sep) + Split(t, sep)
  {
    var all := s + [sep] + t;
    if s == "" {
      assert all[1..] == t;
    } else {
      assert all[1..] == s[1..] + [sep] + t;
      SplitBoth(s[1..], t, sep);
    }
  }

  lemma {:induction false} JoinBoth(a: seq<string>, b: seq<string>, sep: char)
    requires a != [] && b != []
    ensures Join(a + b, sep) == Join(a, sep) + [sep] + Join(b, sep)
  {
    if |a| == 1 {
      assert (a + b)[1..] == b;
    } else {
      assert (a + b)[1..] == a[1..] + b;
      JoinBoth(a[1..], b, sep);
    }
  }

  /** The parts hold no characters but those of the text. */
  lemma {:induction false} SplitKeeps(s: string, sep: char)
    ensures forall p <- Split(s, sep), c <- p :: c in s
  {
    if s != "" {
      SplitKeeps(s[1..], sep);
      var rest := Split(s[1..], sep);
      forall p <- Split(s, sep), c <- p ensures c in s {
        assert c == s[0] || c in s[1..] by {
          if p !in rest && s[0] != sep && p == [s[0]] + rest[0] {
            assert c == s[0] || c in rest[0];
          }
        }
      }
    }
  }

  predicate IsDigit(c: char) {
    '0' <= c <= '9'
  }

  function Digits(n: nat): (s: string)
    ensures s != "" && forall c <- s :: IsDigit(c)
  {
    if n < 10 then ['0' + n as char] else Digits(n / 10) + ['0' + (n % 10) as char]
  }

  /** strconv.Itoa */
  function Itoa(n: int): string {
    if n < 0 then "-" + Digits(-n) else Digits(n)
  }

  function ParseDigits(s: string): Option<int> {
    if s == "" then Some(0)
    else
      var c := s[|s| - 1];
      match ParseDigits(s[..|s| - 1])
      case Some(m) => if IsDigit(c) then Some(10 * m + (c - '0') as int) else None
      case None => None
  }

  /** strconv.Atoi, on integers without bounds: an optional sign and at least
      one digit. */
  function Atoi(s: string): Option<int> {
    if s == "" then None
    else if s[0] == '-' || s[0] == '+' then
      if s[1..] == "" then None
      else
        match ParseDigits(s[1..])
        case Some(m) => Some(if s[0] == '-' then -m else m)
        case None => None
    else
      ParseDigits(s)
  }

  lemma {:induction false} ParseDigitsOf(n: nat)
    ensures ParseDigits(Digits(n)) == Some(n)
  {
    if n >= 10 {
      ParseDigitsOf(n / 10);
      var s := Digits(n);
      assert s[..|s| - 1] == Digits(n / 10);
    } else {
      assert Digits(n)[..0] == "";
    }
  }

  /** Parsing a printed number gives it back; so printing is injective. */
  lemma AtoiItoa(n: int)
    ensures Atoi(Itoa(n)) == Some(n)
  {
    if n < 0 {
      ParseDigitsOf(-n);
      assert Itoa(n)[1..] == Digits(-n);
    } else {
      ParseDigitsOf(n);
      assert IsDigit(Digits(n)[0]);
    }
  }

  /** What is a number: digits, after at most one sign. */
  lemma AtoiIff(s: string)
    ensures Atoi(s).Some? <==>
              (s != "" && forall c <- s :: IsDigit(c)) ||
              (|s| > 1 && s[0] in {'-', '+'} && forall c <- s[1..] :: IsDigit(c))
    ensures Atoi(s).Some? && s[0] == '+' ==> Atoi(s) == Atoi(s[1..])
  {
    if s != "" {
      OnlyDigits(s);
      OnlyDigits(s[1..]);
      assert s[0] in s;
      assert s[1..] != "" ==> s[1..][0] in s[1..];
    }
  }

  lemma {:induction false} OnlyDigits(s: string)
    ensures ParseDigits(s).Some? <==> forall c <- s :: IsDigit(c)
  {
    if s != "" {
      var n := |s| - 1;
      OnlyDigits(s[..n]);
      assert s == s[..n] + [s[n]];
    }
  }
}

/** Rewriting `?` placeholders to `$1`, `$2`, … keeps what a query means. */
module Rebind {
  import opened Common

  predicate IsDigit(c: char) { '0' <= c <= '9' }

  function Digit(d: nat): char
    requires d < 10
  {
    '0' + d as char
  }

  /** A number in decimal. */
  function Itoa(n: nat): string {
    if n < 10 then [Digit(n)] else Itoa(n / 10) + [Digit(n % 10)]
  }

  /** The number its digits denote. */
  function Atoi(s: string): int {
    if s == "" then 0 else 10 * Atoi(s[..|s| - 1]) + (s[|s| - 1] as int - '0' as int)
  }

  lemma {:induction false} ItoaIs(n: nat)
    ensures Itoa(n) != "" && forall i :: 0 <= i < |Itoa(n)| ==> IsDigit(Itoa(n)[i])
    ensures Atoi(Itoa(n)) == n
  {
    if n < 10 {
      assert [Digit(n)][..0] == "";
    } else {
      ItoaIs(n / 10);
      var s := Itoa(n);
      assert s[..|s| - 1] == Itoa(n / 10) && s[|s| - 1] == Digit(n % 10);
    }
  }

  // ---- the two ways to bind arguments ----

  /** Each ? outside quotes becomes the next argument; n have been used. */
  function BindPositional(q: string, args: seq<string>, n: nat, quoted: bool): Option<string> {
    if q == "" then Some("")
    else if q[0] == '\'' then Prepend("'", BindPositional(q[1..], args, n, !quoted))
    else if q[0] == '?' && !quoted then
      if n < |args| then Prepend(args[n], BindPositional(q[1..], args, n + 1, quoted)) else None
    else Prepend([q[0]], BindPositional(q[1..], args, n, quoted))
  }

  function Prepend(s: string, rest: Option<string>): Option<string> {
    if rest.Some? then Some(s + rest.value) else None
  }

  /** The digits a text begins with. */
  function Digits(s: string): (d: string)
    ensures |d| <= |s| && forall i :: 0 <= i < |d| ==> IsDigit(d[i])
  {
    if s == "" || !IsDigit(s[0]) then "" else [s[0]] + Digits(s[1..])
  }

  /** Argument k, in front of the rest. */
  function BindOne(k: int, args: seq<string>, rest: Option<string>): Option<string> {
    if 1 <= k <= |args| then Prepend(args[k - 1], rest) else None
  }

  /** Each $n outside quotes becomes the n-th argument. */
  function BindNumbered(q: string, args: seq<string>, quoted: bool): Option<string>
    decreases |q|
  {
    if q == "" then Some("")
    else if q[0] == '\'' then Prepend("'", BindNumbered(q[1..], args, !quoted))
    else if q[0] == '$' && !quoted && Digits(q[1..]) != "" then
      var d := Digits(q[1..]);
      BindOne(Atoi(d), args, BindNumbered(q[1 + |d|..], args, quoted))
    else Prepend([q[0]], BindNumbered(q[1..], args, quoted))
  }

  // ---- the rewriting ----

  /** The rewritten text, when n placeholders have been seen. */
  function Rewritten(q: string, n: nat, quoted: bool): string {
    if q == "" then ""
    else if q[0] == '\'' then "'" + Rewritten(q[1..], n, !quoted)
    else if q[0] == '?' && !quoted then "$" + Itoa(n + 1) + Rewritten(q[1..], n + 1, quoted)
    else [q[0]] + Rewritten(q[1..], n, quoted)
  }

  /** Outside quotes no digit comes directly after a $ or a placeholder. */
  predicate Plain(q: string, quoted: bool) {
    q != "" ==>
      if q[0] == '\'' then Plain(q[1..], !quoted)
      else (!quoted && q[0] in {'$', '?'} && |q| > 1 ==> !IsDigit(q[1])) && Plain(q[1..], quoted)
  }

  lemma {:induction false} DigitsOfConcat(d: string, rest: string)
    requires forall i :: 0 <= i < |d| ==> IsDigit(d[i])
    requires rest == "" || !IsDigit(rest[0])
    ensures Digits(d + rest) == d
  {
    if d == "" {
      assert d + rest == rest;
    } else {
      assert (d + rest)[1..] == d[1..] + rest;
      DigitsOfConcat(d[1..], rest);
    }
  }

  /** What follows a rewritten placeholder does not begin with a digit. */
  lemma RewrittenHead(q: string, n: nat, quoted: bool)
    requires q == "" || !IsDigit(q[0])
    ensures var r := Rewritten(q, n, quoted); r == "" || !IsDigit(r[0])
  {
    if q != "" && q[0] == '?' && !quoted {
      assert ("$" + Itoa(n + 1) + Rewritten(q[1..], n + 1, quoted))[0] == '$';
    }
  }

  /** A $ and its digits are read as the argument they number. */
  lemma BindDigits(d: string, rest: string, args: seq<string>)
    requires d != "" && (forall i :: 0 <= i < |d| ==> IsDigit(d[i])) && (rest == "" || !IsDigit(rest[0]))
    ensures BindNumbered("$" + d + rest, args, false) ==
              BindOne(Atoi(d), args, BindNumbered(rest, args, false))
  {
    assert ("$" + d + rest)[1..] == d + rest && ("$" + d + rest)[1 + |d|..] == rest;
    DigitsOfConcat(d, rest);
    BindDollar("$" + d + rest, d, args);
  }

  lemma BindDollar(s: string, d: string, args: seq<string>)
    requires s != "" && s[0] == '$' && d == Digits(s[1..]) && d != ""
    ensures BindNumbered(s, args, false) ==
              BindOne(Atoi(d), args, BindNumbered(s[1 + |d|..], args, false))
  {
  }

  /** The step at a placeholder: the rewritten one is read as the next argument. */
  lemma BindPlaceholder(args: seq<string>, n: nat, rest: string)
    requires rest == "" || !IsDigit(rest[0])
    ensures BindNumbered("$" + Itoa(n + 1) + rest, args, false) ==
              if n < |args| then Prepend(args[n], BindNumbered(rest, args, false)) else None
  {
    ItoaIs(n + 1);
    BindDigits(Itoa(n + 1), rest, args);
  }

  lemma BindChar(c: char, rest: string, args: seq<string>, quoted: bool)
    requires c != '\'' && (quoted || c != '$' || rest == "" || !IsDigit(rest[0]))
    ensures BindNumbered([c] + rest, args, quoted) == Prepend([c], BindNumbered(rest, args, quoted))
  {
    assert ([c] + rest)[1..] == rest;
  }

  lemma BindQuote(rest: string, args: seq<string>, quoted: bool)
    ensures BindNumbered("'" + rest, args, quoted) == Prepend("'", BindNumbered(rest, args, !quoted))
  {
    assert ("'" + rest)[1..] == rest;
  }

  lemma {:induction false} SameMeaningFrom(q: string, args: seq<string>, n: nat, quoted: bool)
    requires Plain(q, quoted)
    ensures BindNumbered(Rewritten(q, n, quoted), args, quoted) == BindPositional(q, args, n, quoted)
  {
    if q == "" {
    } else {
      var rest := q[1..];
      if q[0] == '\'' {
        SameMeaningFrom(rest, args, n, !quoted);
        BindQuote(Rewritten(rest, n, !quoted), args, quoted);
      } else if q[0] == '?' && !quoted {
        SameMeaningFrom(rest, args, n + 1, quoted);
        RewrittenHead(rest, n + 1, quoted);
        BindPlaceholder(args, n, Rewritten(rest, n + 1, quoted));
      } else {
        SameMeaningFrom(rest, args, n, quoted);
        if q[0] == '$' && !quoted { RewrittenHead(rest, n, quoted); }
        BindChar(q[0], Rewritten(rest, n, quoted), args, quoted);
      }
    }
  }

  // ---- and only then ----

  function Placeholders(q: string, quoted: bool): nat {
    if q == "" then 0
    else if q[0] == '\'' then Placeholders(q[1..], !quoted)
    else (if q[0] == '?' && !quoted then 1 else 0) + Placeholders(q[1..], quoted)
  }

  predicate AllEmpty(args: seq<string>) { forall i :: 0 <= i < |args| ==> args[i] == "" }

  /** Digits go through the rewriting and through binding as they are. */
  lemma {:induction false} ThroughDigits(q: string, args: seq<string>, n: nat)
    ensures var d := Digits(q); var rest := q[|d|..];
            && Rewritten(q, n, false) == d + Rewritten(rest, n, false)
            && (rest == "" || !IsDigit(rest[0]))
            && BindPositional(q, args, n, false) == Prepend(d, BindPositional(rest, args, n, false))
            && Placeholders(q, false) == Placeholders(rest, false)
  {
    if q != "" && IsDigit(q[0]) {
      ThroughDigits(q[1..], args, n);
      var d := Digits(q[1..]);
      assert q[1..][|d|..] == q[1 + |d|..];
      Reassociate([q[0]], d, Rewritten(q[1 + |d|..], n, false));
      var rest := BindPositional(q[1 + |d|..], args, n, false);
      if rest.Some? { Reassociate([q[0]], d, rest.value); }
    } else {
      var rest := BindPositional(q, args, n, false);
      assert q[0..] == q && "" + Rewritten(q, n, false) == Rewritten(q, n, false);
      assert rest.Some? ==> "" + rest.value == rest.value;
    }
  }

  /** A number that runs on into the digits after it: they are gone from what is bound. */
  lemma BindRunOn(number: string, d: string, rest: string, args: seq<string>)
    requires AllEmpty(args) && number + d != ""
    requires forall i :: 0 <= i < |number + d| ==> IsDigit((number + d)[i])
    requires rest == "" || !IsDigit(rest[0])
    ensures var b := BindNumbered("$" + number + (d + rest), args, false);
            b.Some? ==> b == BindNumbered(rest, args, false)
  {
    var all := number + d;
    BindDigits(all, rest, args);
    Reassociate("$", number, d);
    Reassociate("$" + number, d, rest);
    var b := BindNumbered(rest, args, false);
    if b.Some? { Nothing(b.value); }
  }

  /** With empty arguments, binding by number never gives a longer text than binding by position, and
      gives a shorter one, or fails, unless the query is plain. */
  lemma {:induction false} NotLonger(q: string, args: seq<string>, n: nat, quoted: bool)
    requires AllEmpty(args) && n + Placeholders(q, quoted) <= |args|
    ensures var b, p := BindNumbered(Rewritten(q, n, quoted), args, quoted), BindPositional(q, args, n, quoted);
            p.Some? && (b.Some? ==> |b.value| <= |p.value| && (!Plain(q, quoted) ==> |b.value| < |p.value|))
    decreases |q|
  {
    if q == "" {
    } else {
      var rest := q[1..];
      if q[0] == '\'' {
        NotLonger(rest, args, n, !quoted);
        BindQuote(Rewritten(rest, n, !quoted), args, quoted);
      } else if !quoted && q[0] in {'$', '?'} && |q| > 1 && IsDigit(q[1]) {
        RunsOn(q, args, n);
      } else if q[0] == '?' && !quoted {
        NotLonger(rest, args, n + 1, quoted);
        RewrittenHead(rest, n + 1, quoted);
        BindPlaceholder(args, n, Rewritten(rest, n + 1, quoted));
      } else {
        NotLonger(rest, args, n, quoted);
        if q[0] == '$' && !quoted { RewrittenHead(rest, n, quoted); }
        BindChar(q[0], Rewritten(rest, n, quoted), args, quoted);
      }
    }
  }

  lemma {:induction false} RunsOn(q: string, args: seq<string>, n: nat)
    requires AllEmpty(args) && n + Placeholders(q, false) <= |args|
    requires |q| > 1 && q[0] in {'$', '?'} && IsDigit(q[1])
    ensures var b, p := BindNumbered(Rewritten(q, n, false), args, false), BindPositional(q, args, n, false);
            p.Some? && (b.Some? ==> |b.value| < |p.value|)
    decreases |q|, 0
  {
    var m := if q[0] == '?' then n + 1 else n;
    var number := if q[0] == '?' then Itoa(n + 1) else "";
    var d := Digits(q[1..]);
    var rest := q[1..][|d|..];
    ItoaIs(n + 1);
    ThroughDigits(q[1..], args, m);
    NotLonger(rest, args, m, false);
    RewrittenHead(rest, m, false);
    assert "$" + number == "$" || q[0] == '?';
    assert Rewritten(q, n, false) == "$" + number + (d + Rewritten(rest, m, false));
    assert forall i :: 0 <= i < |number + d| ==> IsDigit((number + d)[i]);
    BindRunOn(number, d, Rewritten(rest, m, false), args);
  }

  ghost predicate KeepsMeaning(q: string) {
    forall args: seq<string> ::
      BindNumbered(Rewritten(q, 0, false), args, false) == BindPositional(q, args, 0, false)
  }

  /** Binding by number after rewriting gives the text that binding by position gives before it, and
      fails where that fails, for every argument list, exactly when the query is plain. */
  lemma SameMeaningExactlyWhenPlain(q: string)
    ensures KeepsMeaning(q) <==> Plain(q, false)
  {
    if Plain(q, false) {
      forall args: seq<string> ensures BindNumbered(Rewritten(q, 0, false), args, false) == BindPositional(q, args, 0, false) {
        SameMeaningFrom(q, args, 0, false);
      }
    } else {
      var args := seq(Placeholders(q, false), _ => "");
      NotLonger(q, args, 0, false);
      assert BindNumbered(Rewritten(q, 0, false), args, false) != BindPositional(q, args, 0, false);
    }
  }

  /** A query without placeholders is left alone. */
  lemma {:induction false} NoPlaceholders(q: string, n: nat, quoted: bool)
    requires '?' !in q
    ensures Rewritten(q, n, quoted) == q
  {
    if q == "" {
    } else {
      assert q == [q[0]] + q[1..];
      NoPlaceholders(q[1..], n, if q[0] == '\'' then !quoted else quoted);
    }
  }

  /** The text inside quotes, quotes included. */
  function Literals(q: string, quoted: bool): string {
    if q == "" then ""
    else if q[0] == '\'' then "'" + Literals(q[1..], !quoted)
    else (if quoted then [q[0]] else "") + Literals(q[1..], quoted)
  }

  lemma {:induction false} LiteralsSkip(s: string, rest: string)
    requires '\'' !in s
    ensures Literals(s + rest, false) == Literals(rest, false)
  {
    if s == "" {
      assert s + rest == rest;
    } else {
      assert (s + rest)[1..] == s[1..] + rest;
      LiteralsSkip(s[1..], rest);
    }
  }

  lemma LiteralsFirst(c: char, rest: string, quoted: bool)
    ensures Literals([c] + rest, quoted)
            == if c == '\'' then "'" + Literals(rest, !quoted) else (if quoted then [c] else "") + Literals(rest, quoted)
  {
    assert ([c] + rest)[1..] == rest;
  }

  lemma NumberUnquoted(n: nat)
    ensures '\'' !in "$" + Itoa(n)
  {
    ItoaIs(n);
    var d := Itoa(n);
    assert forall i :: 0 <= i < |d| ==> IsDigit(d[i]) && d[i] != '\'';
  }

  /** Quoted text is left as it is, whatever it contains. */
  lemma {:induction false} LiteralsUnchanged(q: string, n: nat, quoted: bool)
    ensures Literals(Rewritten(q, n, quoted), quoted) == Literals(q, quoted)
  {
    if q == "" {
    } else {
      if q[0] == '\'' {
        LiteralsUnchanged(q[1..], n, !quoted);
        LiteralsFirst('\'', Rewritten(q[1..], n, !quoted), quoted);
      } else if q[0] == '?' && !quoted {
        LiteralsUnchanged(q[1..], n + 1, quoted);
        NumberUnquoted(n + 1);
        LiteralsSkip("$" + Itoa(n + 1), Rewritten(q[1..], n + 1, quoted));
      } else {
        LiteralsUnchanged(q[1..], n, quoted);
        LiteralsFirst(q[0], Rewritten(q[1..], n, quoted), quoted);
      }
    }
  }

  /** The rewriting as the driver does it, a character at a time. */
  method RebindQuery(query: string) returns (b: string)
    ensures b == Rewritten(query, 0, false)
  {
    if '?' !in query {
      NoPlaceholders(query, 0, false);
      return query;
    }
    b := "";
    var n, quoted := 0, false;
    Reassociate("", "", Rewritten(query, 0, false));
    assert query[0..] == query;
    for i := 0 to |query|
      invariant b + Rewritten(query[i..], n, quoted) == Rewritten(query, 0, false)
    {
      var ch, rest := query[i], query[i + 1..];
      assert query[i..][1..] == rest && query[i..][0] == ch;
      if ch == '\'' {
        quoted := !quoted;
        Reassociate(b, [ch], Rewritten(rest, n, quoted));
        b := b + [ch];
      } else if ch == '?' && !quoted {
        n := n + 1;
        Reassociate(b, "$" + Itoa(n), Rewritten(rest, n, quoted));
        Reassociate(b, "$", Itoa(n));
        b := b + "$" + Itoa(n);
      } else {
        Reassociate(b, [ch], Rewritten(rest, n, quoted));
        b := b + [ch];
      }
    }
    assert query[|query|..] == "" && b + "" == b;
  }
}

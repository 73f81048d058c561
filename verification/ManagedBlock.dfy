/** The block of nix.conf that `xilo use` maintains: what is written can be read back, the last write
    wins, and the user's own lines stay. */
module ManagedBlock {
  import opened Common

  function Append<T>(a: List<T>, b: List<T>): List<T> {
    if a.Nil? then b else Cons(a.head, Append(a.tail, b))
  }

  /** The two marker lines and the two settings. */
  datatype Format = Format(start: string, end: string, subsKey: string, keysKey: string)

  // ---- text ----

  function Split(s: string): (l: List<string>)
    ensures l.Cons?
  {
    if s == "" then Cons("", Nil)
    else if s[0] == '\n' then Cons("", Split(s[1..]))
    else var l := Split(s[1..]); Cons([s[0]] + l.head, l.tail)
  }

  function Join(l: List<string>): string {
    if l.Nil? then "" else if l.tail.Nil? then l.head else l.head + "\n" + Join(l.tail)
  }

  /** Without its trailing newlines. */
  function TrimRight(s: string): string {
    if s != "" && s[|s| - 1] == '\n' then TrimRight(s[..|s| - 1]) else s
  }

  predicate IsSpace(c: char) {
    var n := c as int;
    || 9 <= n <= 13 || n == 0x20 || n == 0x85 || n == 0xA0 || n == 0x1680 || 0x2000 <= n <= 0x200A
    || n == 0x2028 || n == 0x2029 || n == 0x202F || n == 0x205F || n == 0x3000
  }

  /** The words of a text, with one word already begun. */
  function Words(s: string, word: string): seq<string> {
    if s == "" then
      if word == "" then [] else [word]
    else if IsSpace(s[0]) then (if word == "" then [] else [word]) + Words(s[1..], "")
    else Words(s[1..], word + [s[0]])
  }

  /** The words after the first equals sign. */
  function Fields(line: string): seq<string> {
    if line == "" then [] else if line[0] == '=' then Words(line[1..], "") else Fields(line[1..])
  }

  function Spaced(words: seq<string>): string {
    if words == [] then "" else if |words| == 1 then words[0] else words[0] + " " + Spaced(words[1..])
  }

  // ---- the editor ----

  function Setting(key: string, words: seq<string>): string { key + " = " + Spaced(words) }

  function Block(f: Format, subs: seq<string>, keys: seq<string>): List<string> {
    Cons(f.start, Cons(Setting(f.subsKey, subs), Cons(Setting(f.keysKey, keys), Cons(f.end, Nil))))
  }

  /** What the lines of the block say. */
  function Parse(f: Format, l: List<string>, inBlock: bool): (seq<string>, seq<string>) {
    if l.Nil? then ([], [])
    else if f.start <= l.head then Parse(f, l.tail, true)
    else if f.end <= l.head then Parse(f, l.tail, false)
    else
      var (subs, keys) := Parse(f, l.tail, inBlock);
      if inBlock && f.subsKey <= l.head then (Fields(l.head) + subs, keys)
      else if inBlock && f.keysKey <= l.head then (subs, Fields(l.head) + keys)
      else (subs, keys)
  }

  /** The lines with every block replaced, and stray end markers dropped. */
  function Out(f: Format, l: List<string>, inBlock: bool, block: List<string>): List<string> {
    if l.Nil? then Nil
    else if f.start <= l.head then Append(block, Out(f, l.tail, true, block))
    else if f.end <= l.head then Out(f, l.tail, false, block)
    else if inBlock then Out(f, l.tail, true, block)
    else Cons(l.head, Out(f, l.tail, false, block))
  }

  function Starts(f: Format, l: List<string>): nat {
    if l.Nil? then 0 else (if f.start <= l.head then 1 else 0) + Starts(f, l.tail)
  }

  function Replaced(f: Format, content: string, subs: seq<string>, keys: seq<string>): string {
    var l, block := Split(content), Block(f, subs, keys);
    var result := TrimRight(Join(Out(f, l, false, block)));
    (if Starts(f, l) > 0 then result else (if result == "" then "" else result + "\n") + Join(block)) + "\n"
  }

  function Parsed(f: Format, content: string): (seq<string>, seq<string>) { Parse(f, Split(content), false) }

  /** The user's own lines: outside every block, and no markers. */
  function UserLines(f: Format, content: string): List<string> { Out(f, Split(content), false, Nil) }

  // ---- the same with the loops of the source ----

  method ParseManagedBlock(f: Format, content: string) returns (subs: seq<string>, keys: seq<string>)
    ensures (subs, keys) == Parsed(f, content)
  {
    subs, keys := [], [];
    var inBlock, rest := false, Split(content);
    Nothing(Parsed(f, content).0);
    Nothing(Parsed(f, content).1);
    while rest.Cons?
      invariant subs + Parse(f, rest, inBlock).0 == Parsed(f, content).0
      invariant keys + Parse(f, rest, inBlock).1 == Parsed(f, content).1
      decreases rest
    {
      var line := rest.head;
      Reassociate(subs, Fields(line), Parse(f, rest.tail, inBlock).0);
      Reassociate(keys, Fields(line), Parse(f, rest.tail, inBlock).1);
      if f.start <= line {
        inBlock := true;
      } else if f.end <= line {
        inBlock := false;
      } else if inBlock && f.subsKey <= line {
        subs := subs + Fields(line);
      } else if inBlock && f.keysKey <= line {
        keys := keys + Fields(line);
      }
      rest := rest.tail;
    }
    Nothing(subs);
    Nothing(keys);
  }

  lemma {:induction false} AppendAssoc<T>(a: List<T>, b: List<T>, c: List<T>)
    ensures Append(Append(a, b), c) == Append(a, Append(b, c))
  {
    if a.Nil? {
    } else {
      AppendAssoc(a.tail, b, c);
    }
  }

  lemma {:induction false} AppendNil<T>(a: List<T>)
    ensures Append(a, Nil) == a
  {
    if a.Nil? {
    } else {
      AppendNil(a.tail);
    }
  }

  method ReplaceManagedBlock(f: Format, content: string, subs: seq<string>, keys: seq<string>) returns (r: string)
    ensures r == Replaced(f, content, subs, keys)
  {
    var block, rest := Block(f, subs, keys), Split(content);
    var out, inBlock, replaced := Nil, false, false;
    while rest.Cons?
      invariant Append(out, Out(f, rest, inBlock, block)) == Out(f, Split(content), false, block)
      invariant replaced || Starts(f, rest) > 0 <==> Starts(f, Split(content)) > 0
      decreases rest
    {
      var line := rest.head;
      ghost var after := Out(f, rest.tail, f.start <= line || (inBlock && !(f.end <= line)), block);
      if f.start <= line {
        inBlock, replaced := true, true;
        AppendAssoc(out, block, after);
        out := Append(out, block);
      } else if f.end <= line {
        inBlock := false;
      } else if !inBlock {
        AppendAssoc(out, Cons(line, Nil), after);
        out := Append(out, Cons(line, Nil));
      }
      rest := rest.tail;
    }
    AppendNil(out);
    r := TrimRight(Join(out));
    if !replaced {
      if r != "" { r := r + "\n"; }
      r := r + Join(block);
    }
    r := r + "\n";
  }

  // ---- lines and text ----

  predicate OneLine(s: string) { '\n' !in s }

  predicate OneLiners(l: List<string>) { l.Cons? ==> OneLine(l.head) && OneLiners(l.tail) }

  lemma {:induction false} SplitIsLines(s: string)
    ensures OneLiners(Split(s))
  {
    if s == "" {
    } else {
      SplitIsLines(s[1..]);
    }
  }

  lemma {:induction false} SplitFirst(x: string, t: string)
    requires OneLine(x)
    ensures Split(x + "\n" + t) == Cons(x, Split(t))
  {
    var s := x + "\n" + t;
    if x == "" {
      assert s[1..] == t;
    } else {
      assert s[1..] == x[1..] + "\n" + t;
      SplitFirst(x[1..], t);
      assert x == [x[0]] + x[1..];
    }
  }

  lemma {:induction false} SplitOne(x: string)
    requires OneLine(x)
    ensures Split(x) == Cons(x, Nil)
  {
    if x == "" {
    } else {
      SplitOne(x[1..]);
      assert x == [x[0]] + x[1..];
    }
  }

  lemma {:induction false} SplitJoin(l: List<string>)
    requires l.Cons? && OneLiners(l)
    ensures Split(Join(l)) == l
  {
    if l.tail.Nil? {
      SplitOne(l.head);
    } else {
      SplitFirst(l.head, Join(l.tail));
      SplitJoin(l.tail);
    }
  }

  lemma {:induction false} JoinAppend(a: List<string>, b: List<string>)
    requires a.Cons? && b.Cons?
    ensures Join(Append(a, b)) == Join(a) + "\n" + Join(b)
  {
    if a.tail.Nil? {
    } else {
      JoinAppend(a.tail, b);
      Reassociate(a.head + "\n", Join(a.tail) + "\n", Join(b));
      Reassociate(a.head + "\n", Join(a.tail), "\n");
    }
  }

  predicate AllEmpty(l: List<string>) { l.Cons? ==> l.head == "" && AllEmpty(l.tail) }

  /** Without its trailing empty lines; one line at least. */
  function Trimmed(l: List<string>): (t: List<string>)
    ensures t.Cons?
  {
    if l.Nil? then Cons("", Nil) else if AllEmpty(l.tail) then Cons(l.head, Nil) else Cons(l.head, Trimmed(l.tail))
  }

  lemma {:induction false} TrimRightConcat(a: string, b: string)
    ensures TrimRight(a + b) == if TrimRight(b) == "" then TrimRight(a) else a + TrimRight(b)
    decreases |b|
  {
    if b == "" {
      assert a + b == a;
    } else if b[|b| - 1] == '\n' {
      assert (a + b)[..|a + b| - 1] == a + b[..|b| - 1];
      TrimRightConcat(a, b[..|b| - 1]);
    }
  }

  lemma {:induction false} TrimRightJoin(l: List<string>)
    requires OneLiners(l)
    ensures TrimRight(Join(l)) == Join(Trimmed(l))
    ensures Join(Trimmed(l)) == "" <==> AllEmpty(l)
  {
    if l.Cons? && l.tail.Cons? {
      TrimRightJoin(l.tail);
      TrimRightConcat(l.head + "\n", Join(l.tail));
      TrimNewline(l.head);
      assert l.head + "\n" + Join(Trimmed(l.tail)) != "";
    }
  }

  lemma TrimNewline(x: string)
    requires OneLine(x)
    ensures TrimRight(x + "\n") == x && TrimRight(x) == x
  {
    assert (x + "\n")[..|x|] == x;
  }

  lemma {:induction false} AppendLines(a: List<string>, b: List<string>)
    ensures OneLiners(Append(a, b)) <==> OneLiners(a) && OneLiners(b)
    ensures AllEmpty(Append(a, b)) <==> AllEmpty(a) && AllEmpty(b)
  {
    if a.Nil? {
    } else {
      AppendLines(a.tail, b);
    }
  }

  lemma {:induction false} TrimmedLines(l: List<string>)
    requires OneLiners(l)
    ensures OneLiners(Trimmed(l))
  {
    if l.Nil? {
    } else {
      TrimmedLines(l.tail);
    }
  }

  lemma {:induction false} TrimmedAppend(a: List<string>, b: List<string>)
    ensures Trimmed(Append(a, b)) == if AllEmpty(b) then Trimmed(a) else Append(a, Trimmed(b))
  {
    if a.Cons? {
      TrimmedAppend(a.tail, b);
      AppendLines(a.tail, b);
    } else {
      TrimmedEmpty(b);
    }
  }

  lemma TrimmedEmpty(l: List<string>)
    ensures AllEmpty(l) <==> Trimmed(l) == Cons("", Nil)
  {
  }

  // ---- the block among the lines ----

  predicate Differ(a: string, b: string) {
    exists i :: 0 <= i < |a| && i < |b| && a[i] != b[i]
  }

  lemma DifferNoPrefix(a: string, b: string, x: string)
    requires Differ(a, b)
    ensures !(a <= b + x) && !(b <= a + x) && !(a <= b) && !(b <= a)
  {
    var i :| 0 <= i < |a| && i < |b| && a[i] != b[i];
    assert (b + x)[i] == b[i] && (a + x)[i] == a[i];
  }

  /** The four texts are lines that cannot be taken for one another. */
  predicate Sane(f: Format) {
    && OneLine(f.start) && OneLine(f.end) && OneLine(f.subsKey) && OneLine(f.keysKey)
    && f.end != "" && '=' !in f.subsKey && '=' !in f.keysKey
    && Differ(f.start, f.end) && Differ(f.start, f.subsKey) && Differ(f.start, f.keysKey)
    && Differ(f.end, f.subsKey) && Differ(f.end, f.keysKey) && Differ(f.subsKey, f.keysKey)
  }

  predicate Word(w: string) { w != "" && forall i :: 0 <= i < |w| ==> !IsSpace(w[i]) }

  predicate AllWords(words: seq<string>) { forall i :: 0 <= i < |words| ==> Word(words[i]) }

  lemma {:induction false} SpacedIsLine(words: seq<string>)
    requires AllWords(words)
    ensures OneLine(Spaced(words))
  {
    if words == [] {
    } else {
      SpacedIsLine(words[1..]);
      forall i | 0 <= i < |words[0]| ensures words[0][i] != '\n' { assert !IsSpace(words[0][i]); }
    }
  }

  lemma {:induction false} WordsTake(w: string, s: string, word: string)
    requires forall i :: 0 <= i < |w| ==> !IsSpace(w[i])
    ensures Words(w + s, word) == Words(s, word + w)
    decreases |w|
  {
    if w == "" {
      assert w + s == s && word + w == word;
    } else {
      assert (w + s)[1..] == w[1..] + s && word + [w[0]] + w[1..] == word + w;
      WordsTake(w[1..], s, word + [w[0]]);
    }
  }

  /** A word in front of a space, or of nothing, is read off whole. */
  lemma WordsFirst(w: string, s: string)
    requires Word(w)
    ensures Words(w, "") == [w] && Words(w + " " + s, "") == [w] + Words(s, "")
  {
    WordsTake(w, "", "");
    assert w + "" == w && "" + w == w;
    WordsTake(w, " " + s, "");
    assert w + (" " + s) == w + " " + s && (" " + s)[1..] == s;
  }

  lemma {:induction false} WordsOfSpaced(words: seq<string>)
    requires AllWords(words)
    ensures Words(Spaced(words), "") == words
  {
    if words == [] {
    } else {
      WordsFirst(words[0], Spaced(words[1..]));
      WordsOfSpaced(words[1..]);
      assert words == [words[0]] + words[1..];
    }
  }

  lemma {:induction false} FieldsAfterKey(key: string, val: string)
    requires '=' !in key
    ensures Fields(key + "=" + val) == Words(val, "")
  {
    var s := key + "=" + val;
    if key == "" {
      assert s[1..] == val;
    } else {
      assert s[1..] == key[1..] + "=" + val;
      FieldsAfterKey(key[1..], val);
    }
  }

  /** A setting's words come back from its line. */
  lemma FieldsOfSetting(key: string, words: seq<string>)
    requires '=' !in key && AllWords(words)
    ensures Fields(Setting(key, words)) == words
  {
    var spaced := Spaced(words);
    assert Setting(key, words) == (key + " ") + "=" + (" " + spaced);
    FieldsAfterKey(key + " ", " " + spaced);
    assert (" " + spaced)[1..] == spaced;
    WordsOfSpaced(words);
  }

  /** How the lines of a block are told apart. */
  lemma BlockMarkers(f: Format, subs: seq<string>, keys: seq<string>)
    requires Sane(f)
    ensures var s, k := Setting(f.subsKey, subs), Setting(f.keysKey, keys);
            && !(f.start <= s) && !(f.end <= s) && f.subsKey <= s
            && !(f.start <= k) && !(f.end <= k) && !(f.subsKey <= k) && f.keysKey <= k
            && !(f.start <= f.end) && f.end != ""
  {
    var x, y := " = " + Spaced(subs), " = " + Spaced(keys);
    assert Setting(f.subsKey, subs) == f.subsKey + x && Setting(f.keysKey, keys) == f.keysKey + y;
    DifferNoPrefix(f.start, f.subsKey, x);
    DifferNoPrefix(f.end, f.subsKey, x);
    DifferNoPrefix(f.start, f.keysKey, y);
    DifferNoPrefix(f.end, f.keysKey, y);
    DifferNoPrefix(f.subsKey, f.keysKey, y);
    DifferNoPrefix(f.start, f.end, "");
  }

  /** Reading a block gives its words, and replacing it gives the new block. */
  lemma ThroughBlock(f: Format, subs: seq<string>, keys: seq<string>, rest: List<string>, block: List<string>)
    requires Sane(f) && AllWords(subs) && AllWords(keys)
    ensures var l := Append(Block(f, subs, keys), rest);
            && Parse(f, l, false) == (subs + Parse(f, rest, false).0, keys + Parse(f, rest, false).1)
            && Out(f, l, false, block) == Append(block, Out(f, rest, false, block))
            && Starts(f, l) == 1 + Starts(f, rest)
  {
    BlockMarkers(f, subs, keys);
    FieldsOfSetting(f.subsKey, subs);
    FieldsOfSetting(f.keysKey, keys);
    var s, k := Setting(f.subsKey, subs), Setting(f.keysKey, keys);
    var l3 := Cons(f.end, rest);
    var l2 := Cons(k, l3);
    var l1 := Cons(s, l2);
    AppendBlock(f.start, s, k, f.end, rest);
    assert Parse(f, l3, true) == Parse(f, rest, false) && Out(f, l3, true, block) == Out(f, rest, false, block);
    assert Parse(f, l2, true) == (Parse(f, rest, false).0, keys + Parse(f, rest, false).1);
    assert Out(f, l2, true, block) == Out(f, rest, false, block) == Out(f, l1, true, block);
    assert Starts(f, l3) == Starts(f, rest) == Starts(f, l2) == Starts(f, l1);
  }

  lemma AppendBlock<T>(a: T, b: T, c: T, d: T, rest: List<T>)
    ensures Append(Cons(a, Cons(b, Cons(c, Cons(d, Nil)))), rest) == Cons(a, Cons(b, Cons(c, Cons(d, rest))))
  {
    assert Append(Cons(d, Nil), rest) == Cons(d, rest);
    assert Append(Cons(c, Cons(d, Nil)), rest) == Cons(c, Cons(d, rest));
    assert Append(Cons(b, Cons(c, Cons(d, Nil))), rest) == Cons(b, Cons(c, Cons(d, rest)));
  }

  // ---- lines that have been through the editor ----

  /** Replacing the blocks of what a replacement gave is replacing those of the original. */
  lemma {:induction false} OutOfOut(f: Format, l: List<string>, inBlock: bool, subs: seq<string>, keys: seq<string>, block: List<string>)
    requires Sane(f) && AllWords(subs) && AllWords(keys)
    ensures var o := Out(f, l, inBlock, Block(f, subs, keys));
            Out(f, o, false, block) == Out(f, l, inBlock, block) && Starts(f, o) == Starts(f, l)
  {
    if l.Nil? {
    } else {
      var in' := f.start <= l.head || (inBlock && !(f.end <= l.head));
      OutOfOut(f, l.tail, in', subs, keys, block);
      if f.start <= l.head { ThroughBlock(f, subs, keys, Out(f, l.tail, in', Block(f, subs, keys)), block); }
    }
  }

  function Times(n: nat, words: seq<string>): seq<string> {
    if n == 0 then [] else words + Times(n - 1, words)
  }

  /** Reading what a replacement gave reads the block once for every block it replaced. */
  lemma {:induction false} ParseOfOut(f: Format, l: List<string>, inBlock: bool, subs: seq<string>, keys: seq<string>)
    requires Sane(f) && AllWords(subs) && AllWords(keys)
    ensures Parse(f, Out(f, l, inBlock, Block(f, subs, keys)), false) == (Times(Starts(f, l), subs), Times(Starts(f, l), keys))
  {
    if l.Nil? {
    } else {
      var in' := f.start <= l.head || (inBlock && !(f.end <= l.head));
      ParseOfOut(f, l.tail, in', subs, keys);
      if f.start <= l.head { ThroughBlock(f, subs, keys, Out(f, l.tail, in', Block(f, subs, keys)), Nil); }
    }
  }

  /** The state the editor is in after these lines. */
  function After(f: Format, l: List<string>, inBlock: bool): bool {
    if l.Nil? then inBlock
    else if f.start <= l.head then After(f, l.tail, true)
    else if f.end <= l.head then After(f, l.tail, false)
    else After(f, l.tail, inBlock)
  }

  lemma {:induction false} OutOfAppend(f: Format, a: List<string>, b: List<string>, inBlock: bool, block: List<string>)
    ensures Out(f, Append(a, b), inBlock, block) == Append(Out(f, a, inBlock, block), Out(f, b, After(f, a, inBlock), block))
  {
    if a.Nil? {
    } else {
      var in' := f.start <= a.head || (inBlock && !(f.end <= a.head));
      OutOfAppend(f, a.tail, b, in', block);
      AppendAssoc(block, Out(f, a.tail, in', block), Out(f, b, After(f, a, inBlock), block));
    }
  }

  lemma {:induction false} ParseOfAppend(f: Format, a: List<string>, b: List<string>, inBlock: bool)
    ensures Parse(f, Append(a, b), inBlock).0 == Parse(f, a, inBlock).0 + Parse(f, b, After(f, a, inBlock)).0
    ensures Parse(f, Append(a, b), inBlock).1 == Parse(f, a, inBlock).1 + Parse(f, b, After(f, a, inBlock)).1
    ensures Starts(f, Append(a, b)) == Starts(f, a) + Starts(f, b)
    ensures After(f, Append(a, b), inBlock) == After(f, b, After(f, a, inBlock))
  {
    if a.Cons? {
      var in' := f.start <= a.head || (inBlock && !(f.end <= a.head));
      ParseOfAppend(f, a.tail, b, in');
      Reassociate(Fields(a.head), Parse(f, a.tail, in').0, Parse(f, b, After(f, a, inBlock)).0);
      Reassociate(Fields(a.head), Parse(f, a.tail, in').1, Parse(f, b, After(f, a, inBlock)).1);
    } else {
      Nothing(Parse(f, b, inBlock).0);
      Nothing(Parse(f, b, inBlock).1);
    }
  }

  /** A replacement leaves no block open. */
  lemma {:induction false} AfterOut(f: Format, l: List<string>, inBlock: bool, subs: seq<string>, keys: seq<string>)
    requires Sane(f)
    ensures !After(f, Out(f, l, inBlock, Block(f, subs, keys)), false)
  {
    if l.Nil? {
    } else {
      var in' := f.start <= l.head || (inBlock && !(f.end <= l.head));
      var rest := Out(f, l.tail, in', Block(f, subs, keys));
      AfterOut(f, l.tail, in', subs, keys);
      if f.start <= l.head {
        BlockMarkers(f, subs, keys);
        AppendBlock(f.start, Setting(f.subsKey, subs), Setting(f.keysKey, keys), f.end, rest);
        AfterBlock(f, subs, keys, rest);
      }
    }
  }

  lemma AfterBlock(f: Format, subs: seq<string>, keys: seq<string>, rest: List<string>)
    requires Sane(f)
    ensures After(f, Append(Block(f, subs, keys), rest), false) == After(f, rest, false)
  {
    BlockMarkers(f, subs, keys);
    var s, k := Setting(f.subsKey, subs), Setting(f.keysKey, keys);
    AppendBlock(f.start, s, k, f.end, rest);
    assert After(f, Cons(f.end, rest), true) == After(f, rest, false);
    assert After(f, Cons(k, Cons(f.end, rest)), true) == After(f, rest, false);
    assert After(f, Cons(s, Cons(k, Cons(f.end, rest))), true) == After(f, rest, false);
  }

  /** Empty lines say nothing and stay empty. */
  lemma {:induction false} EmptyLines(f: Format, l: List<string>, inBlock: bool, block: List<string>)
    requires Sane(f) && AllEmpty(l)
    ensures AllEmpty(Out(f, l, inBlock, block)) && Parse(f, l, inBlock) == ([], []) && Starts(f, l) == 0
    ensures After(f, l, inBlock) == inBlock
  {
    if l.Nil? {
    } else {
      EmptyLines(f, l.tail, inBlock, block);
    }
  }

  /** What the first line turns into. */
  function FirstOut(f: Format, line: string, inBlock: bool, block: List<string>): List<string> {
    if f.start <= line then block else if f.end <= line || inBlock then Nil else Cons(line, Nil)
  }

  lemma OutFirst(f: Format, line: string, rest: List<string>, inBlock: bool, block: List<string>)
    ensures Out(f, Cons(line, rest), inBlock, block) ==
              Append(FirstOut(f, line, inBlock, block), Out(f, rest, After(f, Cons(line, Nil), inBlock), block))
  {
    AppendNil(block);
  }

  /** Dropping trailing empty lines first makes no difference to what replaces them, up to trailing
      empty lines. */
  lemma {:induction false} OutOfTrimmed(f: Format, l: List<string>, inBlock: bool, block: List<string>)
    requires Sane(f)
    ensures Trimmed(Out(f, Trimmed(l), inBlock, block)) == Trimmed(Out(f, l, inBlock, block))
  {
    if l.Nil? {
      EmptyLines(f, Cons("", Nil), inBlock, block);
      TrimmedEmpty(Out(f, Cons("", Nil), inBlock, block));
    } else {
      var in' := After(f, Cons(l.head, Nil), inBlock);
      var first := FirstOut(f, l.head, inBlock, block);
      OutFirst(f, l.head, l.tail, inBlock, block);
      TrimmedAppend(first, Out(f, l.tail, in', block));
      if AllEmpty(l.tail) {
        EmptyLines(f, l.tail, in', block);
        OutFirst(f, l.head, Nil, inBlock, block);
        AppendNil(first);
      } else {
        OutOfTrimmed(f, l.tail, in', block);
        OutFirst(f, l.head, Trimmed(l.tail), inBlock, block);
        TrimmedAppend(first, Out(f, Trimmed(l.tail), in', block));
        TrimmedEmpty(Out(f, Trimmed(l.tail), in', block));
        TrimmedEmpty(Out(f, l.tail, in', block));
      }
    }
  }

  lemma {:induction false} TrimmedRest(l: List<string>) returns (e: List<string>)
    requires l.Cons?
    ensures AllEmpty(e) && l == Append(Trimmed(l), e)
  {
    if AllEmpty(l.tail) { e := l.tail; } else { e := TrimmedRest(l.tail); }
  }

  lemma ParseOfTrimmed(f: Format, l: List<string>, inBlock: bool)
    requires Sane(f)
    ensures Parse(f, Trimmed(l), inBlock) == Parse(f, l, inBlock) && Starts(f, Trimmed(l)) == Starts(f, l)
    ensures After(f, Trimmed(l), inBlock) == After(f, l, inBlock)
  {
    if l.Nil? {
      EmptyLines(f, Cons("", Nil), inBlock, Nil);
    } else {
      var e := TrimmedRest(l);
      var t := Trimmed(l);
      ParseOfAppend(f, t, e, inBlock);
      EmptyLines(f, e, After(f, t, inBlock), Nil);
      Nothing(Parse(f, t, inBlock).0);
      Nothing(Parse(f, t, inBlock).1);
    }
  }

  // ---- the text that is written ----

  lemma {:induction false} OutLines(f: Format, l: List<string>, inBlock: bool, block: List<string>)
    requires OneLiners(l) && OneLiners(block)
    ensures OneLiners(Out(f, l, inBlock, block))
  {
    if l.Nil? {
    } else {
      var in' := f.start <= l.head || (inBlock && !(f.end <= l.head));
      OutLines(f, l.tail, in', block);
      AppendLines(block, Out(f, l.tail, in', block));
    }
  }

  lemma BlockLines(f: Format, subs: seq<string>, keys: seq<string>)
    requires Sane(f) && AllWords(subs) && AllWords(keys)
    ensures OneLiners(Block(f, subs, keys)) && Trimmed(Block(f, subs, keys)) == Block(f, subs, keys)
  {
    SpacedIsLine(subs);
    SpacedIsLine(keys);
    var s, k := Setting(f.subsKey, subs), Setting(f.keysKey, keys);
    assert OneLine(s) && OneLine(k);
    var l3: List<string> := Cons(f.end, Nil);
    assert !AllEmpty(l3) && OneLiners(l3) && Trimmed(l3) == l3;
    var l2 := Cons(k, l3);
    assert !AllEmpty(l2) && OneLiners(l2) && Trimmed(l2) == l2;
    var l1 := Cons(s, l2);
    assert !AllEmpty(l1) && OneLiners(l1) && Trimmed(l1) == l1;
  }

  const LAST: List<string> := Cons("", Nil)

  /** The lines of the written text: those that replaced the old ones, or the old ones and then the
      block; and in the end one newline. */
  function Written(f: Format, l: List<string>, block: List<string>): List<string> {
    var o := Out(f, l, false, block);
    if Starts(f, l) > 0 then Append(Trimmed(o), LAST)
    else Append(if AllEmpty(o) then Nil else Trimmed(o), Append(block, LAST))
  }

  lemma JoinLast(l: List<string>)
    requires l.Cons?
    ensures Join(Append(l, LAST)) == Join(l) + "\n"
  {
    JoinAppend(l, LAST);
  }

  lemma WrittenLines(f: Format, l: List<string>, subs: seq<string>, keys: seq<string>)
    requires Sane(f) && AllWords(subs) && AllWords(keys) && OneLiners(l)
    ensures OneLiners(Written(f, l, Block(f, subs, keys)))
  {
    var block := Block(f, subs, keys);
    var o := Out(f, l, false, block);
    BlockLines(f, subs, keys);
    OutLines(f, l, false, block);
    TrimmedLines(o);
    AppendLines(Trimmed(o), LAST);
    AppendLines(block, LAST);
    AppendLines(Trimmed(o), Append(block, LAST));
  }

  lemma TextOfReplaced(f: Format, content: string, subs: seq<string>, keys: seq<string>)
    requires Sane(f) && AllWords(subs) && AllWords(keys)
    ensures Replaced(f, content, subs, keys) == Join(Written(f, Split(content), Block(f, subs, keys)))
  {
    var l, block := Split(content), Block(f, subs, keys);
    var o := Out(f, l, false, block);
    SplitIsLines(content);
    BlockLines(f, subs, keys);
    OutLines(f, l, false, block);
    TrimRightJoin(o);
    JoinLast(Trimmed(o));
    JoinLast(block);
    if Starts(f, l) == 0 && !AllEmpty(o) {
      JoinAppend(Trimmed(o), Append(block, LAST));
      Reassociate(Join(Trimmed(o)) + "\n", Join(block), "\n");
    }
  }

  lemma LinesOfReplaced(f: Format, content: string, subs: seq<string>, keys: seq<string>)
    requires Sane(f) && AllWords(subs) && AllWords(keys)
    ensures Split(Replaced(f, content, subs, keys)) == Written(f, Split(content), Block(f, subs, keys))
  {
    SplitIsLines(content);
    TextOfReplaced(f, content, subs, keys);
    WrittenLines(f, Split(content), subs, keys);
    SplitJoin(Written(f, Split(content), Block(f, subs, keys)));
  }

  lemma ThroughWritten(f: Format, l: List<string>, subs: seq<string>, keys: seq<string>)
    requires Sane(f) && AllWords(subs) && AllWords(keys)
    ensures var w, n := Written(f, l, Block(f, subs, keys)), Max(Starts(f, l), 1);
            Parse(f, w, false) == (Times(n, subs), Times(n, keys)) && Starts(f, w) == n
  {
    var block := Block(f, subs, keys);
    var o := Out(f, l, false, block);
    var kept := if AllEmpty(o) then Nil else Trimmed(o);
    ParseOfOut(f, l, false, subs, keys);
    OutOfOut(f, l, false, subs, keys, Nil);
    AfterOut(f, l, false, subs, keys);
    ParseOfTrimmed(f, o, false);
    EmptyLines(f, LAST, false, Nil);
    ThroughBlock(f, subs, keys, LAST, Nil);
    ParseOfAppend(f, Trimmed(o), LAST, false);
    ParseOfAppend(f, kept, Append(block, LAST), false);
    Nothing(subs);
    Nothing(keys);
    Nothing(Times(Starts(f, l), subs));
    Nothing(Times(Starts(f, l), keys));
    assert Times(0, subs) == [] == Times(0, keys) && Times(1, subs) == subs + [] && Times(1, keys) == keys + [];
    assert AllEmpty(o) ==> Starts(f, o) == 0 by { if AllEmpty(o) { EmptyLines(f, o, false, Nil); } }
  }

  // ---- the laws of the editor ----

  function StartLines(f: Format, content: string): nat { Starts(f, Split(content)) }

  /** Reading back what was written gives the written lists once for every block there was. */
  lemma ReadBack(f: Format, content: string, subs: seq<string>, keys: seq<string>)
    requires Sane(f) && AllWords(subs) && AllWords(keys)
    ensures var n := Max(StartLines(f, content), 1);
            && Parsed(f, Replaced(f, content, subs, keys)) == (Times(n, subs), Times(n, keys))
            && StartLines(f, Replaced(f, content, subs, keys)) == n
  {
    LinesOfReplaced(f, content, subs, keys);
    ThroughWritten(f, Split(content), subs, keys);
  }

  lemma {:induction false} TimesLength(n: nat, words: seq<string>)
    ensures |Times(n, words)| == n * |words|
  {
    if n == 0 {
    } else {
      TimesLength(n - 1, words);
    }
  }

  /** Reading back gives exactly the written lists when the text has at most one block start, and
      otherwise only if there was nothing to write. */
  lemma ReadBackExactly(f: Format, content: string, subs: seq<string>, keys: seq<string>)
    requires Sane(f) && AllWords(subs) && AllWords(keys)
    ensures Parsed(f, Replaced(f, content, subs, keys)) == (subs, keys)
            <==> StartLines(f, content) <= 1 || (subs == [] && keys == [])
  {
    var n := Max(StartLines(f, content), 1);
    ReadBack(f, content, subs, keys);
    TimesLength(n, subs);
    TimesLength(n, keys);
    Nothing(subs);
    Nothing(keys);
    assert Times(1, subs) == subs + Times(0, subs) && Times(1, keys) == keys + Times(0, keys);
    if n > 1 && subs != [] { MoreThanOnce(n, |subs|); }
    if n > 1 && keys != [] { MoreThanOnce(n, |keys|); }
  }

  lemma MoreThanOnce(n: nat, k: nat)
    requires n > 1 && k > 0
    ensures n * k > k
  {
  }

  lemma WrittenTwice(f: Format, l: List<string>, subs: seq<string>, keys: seq<string>, block: List<string>)
    requires Sane(f) && AllWords(subs) && AllWords(keys)
    ensures var w := Written(f, l, Block(f, subs, keys));
            Trimmed(Out(f, w, false, block)) ==
              if Starts(f, l) > 0 then Trimmed(Out(f, l, false, block))
              else Trimmed(Append(if AllEmpty(Out(f, l, false, block)) then Nil else Trimmed(Out(f, l, false, block)), block))
  {
    var b := Block(f, subs, keys);
    var o := Out(f, l, false, b);
    OutOfOut(f, l, false, subs, keys, block);
    AfterOut(f, l, false, subs, keys);
    ParseOfTrimmed(f, o, false);
    EmptyLines(f, LAST, false, block);
    OutOfTrimmed(f, o, false, block);
    if Starts(f, l) > 0 {
      OutOfAppend(f, Trimmed(o), LAST, false, block);
      TrimmedAppend(Out(f, Trimmed(o), false, block), Out(f, LAST, false, block));
    } else {
      NoStartsSame(f, l, false, b, block);
      var kept := if AllEmpty(o) then Nil else Trimmed(o);
      OutOfAppend(f, kept, Append(b, LAST), false, block);
      ThroughBlock(f, subs, keys, LAST, block);
      NoStartsNoMarkers(f, l, false, block);
      TrimmedNoMarkers(f, o);
      NoMarkersUnchanged(f, Trimmed(o), block);
      AppendAssoc(kept, block, Out(f, LAST, false, block));
      TrimmedAppend(Append(kept, block), Out(f, LAST, false, block));
    }
  }

  /** Without a block start, what a block would be does not matter. */
  lemma {:induction false} NoStartsSame(f: Format, l: List<string>, inBlock: bool, a: List<string>, b: List<string>)
    requires Starts(f, l) == 0
    ensures Out(f, l, inBlock, a) == Out(f, l, inBlock, b)
  {
    if l.Nil? {
    } else {
      NoStartsSame(f, l.tail, inBlock && !(f.end <= l.head), a, b);
    }
  }

  /** Lines without any marker go through unchanged. */
  predicate NoMarkers(f: Format, l: List<string>) {
    l.Cons? ==> !(f.start <= l.head) && !(f.end <= l.head) && NoMarkers(f, l.tail)
  }

  lemma {:induction false} NoMarkersUnchanged(f: Format, l: List<string>, block: List<string>)
    requires NoMarkers(f, l)
    ensures Out(f, l, false, block) == l && !After(f, l, false)
  {
    if l.Nil? {
    } else {
      NoMarkersUnchanged(f, l.tail, block);
    }
  }

  lemma {:induction false} NoStartsNoMarkers(f: Format, l: List<string>, inBlock: bool, block: List<string>)
    requires Starts(f, l) == 0
    ensures NoMarkers(f, Out(f, l, inBlock, block))
  {
    if l.Nil? {
    } else {
      NoStartsNoMarkers(f, l.tail, inBlock && !(f.end <= l.head), block);
    }
  }

  lemma {:induction false} TrimmedNoMarkers(f: Format, o: List<string>)
    requires Sane(f) && NoMarkers(f, o)
    ensures NoMarkers(f, Trimmed(o))
  {
    if o.Nil? || AllEmpty(o.tail) {
    } else {
      TrimmedNoMarkers(f, o.tail);
    }
  }

  /** Of two writes only the second counts. */
  lemma LastWriteWins(f: Format, content: string, subs: seq<string>, keys: seq<string>, subs': seq<string>, keys': seq<string>)
    requires Sane(f) && AllWords(subs) && AllWords(keys) && AllWords(subs') && AllWords(keys')
    ensures Replaced(f, Replaced(f, content, subs, keys), subs', keys') == Replaced(f, content, subs', keys')
  {
    var l, b' := Split(content), Block(f, subs', keys');
    var w := Written(f, l, Block(f, subs, keys));
    LinesOfReplaced(f, content, subs, keys);
    ThroughWritten(f, l, subs, keys);
    TextOfReplaced(f, content, subs', keys');
    TextOfReplaced(f, Replaced(f, content, subs, keys), subs', keys');
    WrittenTwice(f, l, subs, keys, b');
    BlockLines(f, subs', keys');
    if Starts(f, l) == 0 {
      var o := Out(f, l, false, b');
      var kept := if AllEmpty(o) then Nil else Trimmed(o);
      TrimmedAppend(kept, b');
      AppendAssoc(kept, b', LAST);
      assert !AllEmpty(b');
    }
  }

  /** The user's own lines are kept, in their order, up to trailing empty lines. */
  lemma UserLinesKept(f: Format, content: string, subs: seq<string>, keys: seq<string>)
    requires Sane(f) && AllWords(subs) && AllWords(keys)
    ensures Trimmed(UserLines(f, Replaced(f, content, subs, keys))) == Trimmed(UserLines(f, content))
  {
    var l := Split(content);
    LinesOfReplaced(f, content, subs, keys);
    WrittenTwice(f, l, subs, keys, Nil);
    var o := Out(f, l, false, Nil);
    AppendNil(Trimmed(o));
    TrimmedTwice(o);
    TrimmedEmpty(o);
  }

  /** The lines in front of the first block, without stray end markers. */
  function Head(f: Format, l: List<string>): List<string> {
    if l.Nil? || f.start <= l.head then Nil
    else if f.end <= l.head then Head(f, l.tail)
    else Cons(l.head, Head(f, l.tail))
  }

  lemma {:induction false} OutHead(f: Format, l: List<string>, block: List<string>) returns (rest: List<string>)
    requires Starts(f, l) > 0
    ensures Out(f, l, false, block) == Append(Head(f, l), Append(block, rest))
    decreases l
  {
    if f.start <= l.head {
      rest := Out(f, l.tail, true, block);
    } else {
      rest := OutHead(f, l.tail, block);
    }
  }

  /** A block is replaced where it is: the lines in front of it stay in front of it. */
  lemma BlockStaysInPlace(f: Format, content: string, subs: seq<string>, keys: seq<string>) returns (rest: List<string>)
    requires Sane(f) && AllWords(subs) && AllWords(keys) && StartLines(f, content) > 0
    ensures Split(Replaced(f, content, subs, keys))
            == Append(Head(f, Split(content)), Append(Block(f, subs, keys), rest))
  {
    var l, block := Split(content), Block(f, subs, keys);
    LinesOfReplaced(f, content, subs, keys);
    var after := OutHead(f, l, block);
    BlockLines(f, subs, keys);
    TrimmedAppend(Head(f, l), Append(block, after));
    TrimmedAppend(block, after);
    AppendLines(block, after);
    assert !AllEmpty(block);
    AppendNil(block);
    var kept := if AllEmpty(after) then Nil else Trimmed(after);
    assert Trimmed(Append(block, after)) == Append(block, kept);
    AppendAssoc(Head(f, l), Append(block, kept), LAST);
    AppendAssoc(block, kept, LAST);
    rest := Append(kept, LAST);
  }

  lemma {:induction false} TrimmedTwice(l: List<string>)
    ensures Trimmed(Trimmed(l)) == Trimmed(l) && (AllEmpty(Trimmed(l)) <==> AllEmpty(l))
  {
    if l.Nil? || AllEmpty(l.tail) {
    } else {
      TrimmedTwice(l.tail);
    }
  }

  // ---- using a cache, and no longer using it ----

  function Using(words: seq<string>, w: string): seq<string> {
    if w in words then words else words + [w]
  }

  /** `xilo use`: adds the substituter and its key to what the block says. */
  function Used(f: Format, content: string, sub: string, key: string): string {
    var (subs, keys) := Parsed(f, content);
    Replaced(f, content, Using(subs, sub), if key == "" then keys else Using(keys, key))
  }

  function Except(words: seq<string>, gone: string -> bool): seq<string> {
    if words == [] then [] else (if gone(words[0]) then [] else [words[0]]) + Except(words[1..], gone)
  }

  /** `xilo use --remove`: drops the substituter and every key of the cache's name. */
  function Dropped(f: Format, content: string, sub: string, cache: string): string {
    var (subs, keys) := Parsed(f, content);
    Replaced(f, content, Except(subs, s => s == sub), Except(keys, k => cache + ":" <= k))
  }

  lemma {:induction false} WordsAreWords(s: string, word: string)
    requires word == "" || Word(word)
    ensures AllWords(Words(s, word))
    decreases |s|
  {
    if s == "" {
    } else {
      WordsAreWords(s[1..], if IsSpace(s[0]) then "" else word + [s[0]]);
    }
  }

  lemma {:induction false} FieldsAreWords(line: string)
    ensures AllWords(Fields(line))
  {
    if line == "" {
    } else {
      if line[0] == '=' { WordsAreWords(line[1..], ""); } else { FieldsAreWords(line[1..]); }
    }
  }

  /** Whatever is read back is made of words, so it can be written. */
  lemma {:induction false} ParsedAreWords(f: Format, l: List<string>, inBlock: bool)
    ensures AllWords(Parse(f, l, inBlock).0) && AllWords(Parse(f, l, inBlock).1)
  {
    if l.Nil? {
    } else {
      FieldsAreWords(l.head);
      ParsedAreWords(f, l.tail, f.start <= l.head || (inBlock && !(f.end <= l.head)));
    }
  }

  lemma {:induction false} ExceptAbsent(words: seq<string>, w: string, gone: string -> bool)
    requires gone(w) && forall i :: 0 <= i < |words| ==> !gone(words[i])
    ensures Except(words, gone) == words && Except(words + [w], gone) == words
  {
    if words == [] {
      assert [] + [w] == [w] && [w][1..] == [];
    } else {
      assert (words + [w])[1..] == words[1..] + [w];
      ExceptAbsent(words[1..], w, gone);
      assert words == [words[0]] + words[1..];
    }
  }

  /** After a cache is put to use the block says what it said before and then, if it did not say so, the
      substituter and the key; several blocks each say it. */
  lemma UseIsReadBack(f: Format, content: string, sub: string, key: string)
    requires Sane(f) && Word(sub) && (key == "" || Word(key))
    ensures var (subs, keys) := Parsed(f, content); var (subs', keys') := Parsed(f, Used(f, content, sub, key));
            && sub in subs' && (key == "" || key in keys')
            && (StartLines(f, content) <= 1 ==>
                  && subs' == (if sub in subs then subs else subs + [sub])
                  && keys' == (if key == "" || key in keys then keys else keys + [key]))
  {
    var (subs, keys) := Parsed(f, content);
    var subs', keys' := Using(subs, sub), if key == "" then keys else Using(keys, key);
    ParsedAreWords(f, Split(content), false);
    ReadBack(f, content, subs', keys');
    var n := Max(StartLines(f, content), 1);
    TimesHas(n, subs', sub);
    TimesHas(n, keys', key);
    if n == 1 {
      TimesOnce(subs');
      TimesOnce(keys');
    }
  }

  lemma TimesHas(n: nat, words: seq<string>, w: string)
    requires n > 0
    ensures w in words ==> w in Times(n, words)
  {
    assert Times(n, words) == words + Times(n - 1, words);
  }

  lemma TimesOnce(words: seq<string>)
    ensures Times(1, words) == words
  {
    assert Times(0, words) == [];
    Nothing(words);
  }

  lemma {:induction false} ExceptIs(words: seq<string>, gone: string -> bool)
    ensures forall w :: w in Except(words, gone) <==> w in words && !gone(w)
    ensures AllWords(words) ==> AllWords(Except(words, gone))
    ensures (forall w :: w in words ==> !gone(w)) ==> Except(words, gone) == words
  {
    if words == [] {
    } else {
      ExceptIs(words[1..], gone);
      assert words == [words[0]] + words[1..];
      assert AllWords(words) ==> AllWords(words[1..]) && Word(words[0]);
    }
  }

  /** After a cache is dropped the block says what it said, without the substituter and without any key
      of the cache. */
  lemma DropIsReadBack(f: Format, content: string, sub: string, cache: string)
    requires Sane(f) && StartLines(f, content) <= 1
    ensures var (subs, keys) := Parsed(f, content); var (subs', keys') := Parsed(f, Dropped(f, content, sub, cache));
            && (forall w :: w in subs' <==> w in subs && w != sub)
            && (forall k :: k in keys' <==> k in keys && !(cache + ":" <= k))
            && (sub !in subs ==> subs' == subs)
  {
    var (subs, keys) := Parsed(f, content);
    ParsedAreWords(f, Split(content), false);
    ExceptIs(subs, s => s == sub);
    ExceptIs(keys, k => cache + ":" <= k);
    ReadBackExactly(f, content, Except(subs, s => s == sub), Except(keys, k => cache + ":" <= k));
  }

  /** Using a cache a second time changes nothing, and dropping one that was new gives back what the
      block said, in the text that writing just that would have given. */
  lemma UseAndDrop(f: Format, content: string, sub: string, cache: string, key: string)
    requires Sane(f) && StartLines(f, content) <= 1 && Word(sub) && (key == "" || Word(key))
    ensures Used(f, Used(f, content, sub, key), sub, key) == Used(f, content, sub, key)
    ensures var (subs, keys) := Parsed(f, content);
            cache + ":" <= key && sub !in subs && (forall k :: k in keys ==> !(cache + ":" <= k)) ==>
              && Dropped(f, Used(f, content, sub, key), sub, cache) == Replaced(f, content, subs, keys)
              && Parsed(f, Dropped(f, Used(f, content, sub, key), sub, cache)) == (subs, keys)
  {
    var (subs, keys) := Parsed(f, content);
    var subs', keys' := Using(subs, sub), if key == "" then keys else Using(keys, key);
    ParsedAreWords(f, Split(content), false);
    ReadBackExactly(f, content, subs', keys');
    ReadBackExactly(f, content, subs, keys);
    LastWriteWins(f, content, subs', keys', subs', keys');
    if cache + ":" <= key && sub !in subs && (forall k :: k in keys ==> !(cache + ":" <= k)) {
      assert forall i :: 0 <= i < |keys| ==> keys[i] in keys;
      assert forall i :: 0 <= i < |subs| ==> subs[i] in subs;
      ExceptAbsent(subs, sub, s => s == sub);
      ExceptAbsent(keys, key, k => cache + ":" <= k);
      assert key !in keys;
      LastWriteWins(f, content, subs', keys', subs, keys);
    }
  }

  // ---- what words are ----

  /** Any text of printable ASCII characters is a word, and no text with an ASCII blank is. */
  lemma PrintableIsWord(w: string)
    requires w != ""
    ensures (forall i :: 0 <= i < |w| ==> 0x21 <= w[i] as int <= 0x7E) ==> Word(w)
    ensures (exists i :: 0 <= i < |w| && w[i] in {' ', '\t', '\n', '\r'}) ==> !Word(w)
  {
  }

  // ---- the format of the source ----

  function StartMarker(): string { "# >>> xilo (managed)" + " — edit via `xilo use`" }
  function EndMarker(): string { "# <<< xilo" }
  function SubsKey(): string { "extra-substituters" }
  function KeysKey(): string { "extra-trusted-public-keys" }

  lemma MarkersAre()
    ensures OneLine(EndMarker()) && |EndMarker()| > 2 && EndMarker()[0] == '#' && EndMarker()[2] == '<'
    ensures OneLine(StartMarker()) && |StartMarker()| > 2 && StartMarker()[0] == '#' && StartMarker()[2] == '>'
  {
    assert OneLine("# >>> xilo (managed)") && OneLine(" — edit via `xilo use`");
  }

  lemma SettingsAre()
    ensures OneLine(KeysKey()) && '=' !in KeysKey() && |KeysKey()| > 6 && KeysKey()[0] == 'e' && KeysKey()[6] == 't'
    ensures OneLine(SubsKey()) && '=' !in SubsKey() && |SubsKey()| > 6 && SubsKey()[0] == 'e' && SubsKey()[6] == 's'
  {
  }

  lemma SaneFormat(f: Format)
    requires OneLine(f.start) && OneLine(f.end) && OneLine(f.subsKey) && OneLine(f.keysKey)
    requires '=' !in f.subsKey && '=' !in f.keysKey
    requires |f.start| > 2 && |f.end| > 2 && |f.subsKey| > 6 && |f.keysKey| > 6
    requires f.start[0] == '#' && f.end[0] == '#' && f.subsKey[0] == 'e' && f.keysKey[0] == 'e'
    requires f.start[2] == '>' && f.end[2] == '<' && f.subsKey[6] == 's' && f.keysKey[6] == 't'
    ensures Sane(f)
  {
  }

  /** The markers and keys the client uses are such that all of the above holds of them. */
  lemma XiloFormatIsSane()
    ensures Sane(Format(StartMarker(), EndMarker(), SubsKey(), KeysKey()))
  {
    MarkersAre();
    SettingsAre();
    SaneFormat(Format(StartMarker(), EndMarker(), SubsKey(), KeysKey()));
  }
}

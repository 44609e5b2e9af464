/** The RejectMsg option: a message with %v for the virus name, turned into a format for `snprintf`. */
module RejectMessage {
  import opened Options
  import opened Commands

  predicate IsPrint(c: char) {
    ' ' <= c <= '~'
  }

  /** Whether %v stands at position `i`. */
  predicate PercentV(msg: Bytes, i: nat) {
    i + 1 < |msg| && msg[i] == '%' && msg[i + 1] == 'v'
  }

  /** At most one %v, and nothing that cannot be printed. */
  ghost predicate Acceptable(msg: Bytes) {
    AcceptableTo(msg, |msg|)
  }

  /** ... up to position `n` */
  ghost predicate AcceptableTo(msg: Bytes, n: nat)
    requires n <= |msg|
  {
    && (forall i :: 0 <= i < n ==> IsPrint(msg[i]))
    && (forall i, j :: 0 <= i < j < n ==> !(PercentV(msg, i) && PercentV(msg, j)))
  }

  ghost predicate SeenV(msg: Bytes, n: nat) {
    exists i :: 0 <= i < n && PercentV(msg, i)
  }

  /** The format for the message from position `i` on. */
  function Compile(msg: Bytes, i: nat): Bytes
    requires i <= |msg|
    decreases |msg| - i
  {
    if i == |msg| then []
    else if PercentV(msg, i) then "%s" + Compile(msg, i + 2)
    else if msg[i] == '%' then "%%%%" + Compile(msg, i + 1)
    else [msg[i]] + Compile(msg, i + 1)
  }

  /** What the option promises: %v replaced by the name, every other percent sign doubled. */
  function Substitute(msg: Bytes, i: nat, name: Bytes): Bytes
    requires i <= |msg|
    decreases |msg| - i
  {
    if i == |msg| then []
    else if PercentV(msg, i) then name + Substitute(msg, i + 2, name)
    else if msg[i] == '%' then "%%" + Substitute(msg, i + 1, name)
    else [msg[i]] + Substitute(msg, i + 1, name)
  }

  /** `printf` with one string argument: none if the format asks for anything else. */
  function Format(fmt: Bytes, args: seq<Bytes>): Option<Bytes> {
    if fmt == [] then Some([])
    else if fmt[0] != '%' then Prepend([fmt[0]], Format(fmt[1..], args))
    else if |fmt| == 1 then None
    else if fmt[1] == '%' then Prepend("%", Format(fmt[2..], args))
    else if fmt[1] == 's' && args != [] then Prepend(args[0], Format(fmt[2..], args[1..]))
    else None
  }

  function Prepend(a: Bytes, b: Option<Bytes>): Option<Bytes> {
    if b.Some? then Some(a + b.value) else None
  }

  lemma FormatFour(rest: Bytes, args: seq<Bytes>)
    ensures Format("%%%%" + rest, args) == Prepend("%%", Format(rest, args))
  {
    var f := "%%%%" + rest;
    assert f[2..] == "%%" + rest && ("%%" + rest)[2..] == rest;
    var b := Format(rest, args);
    if b.Some? {
      assert "%" + ("%" + b.value) == "%%" + b.value;
    }
  }

  lemma FormatName(rest: Bytes, name: Bytes, more: seq<Bytes>)
    ensures Format("%s" + rest, [name] + more) == Prepend(name, Format(rest, more))
  {
    assert ("%s" + rest)[2..] == rest && ([name] + more)[1..] == more;
  }

  lemma FormatPlain(c: char, rest: Bytes, args: seq<Bytes>)
    requires c != '%'
    ensures Format([c] + rest, args) == Prepend([c], Format(rest, args))
  {
    assert ([c] + rest)[1..] == rest;
  }

  /** Rendering the compiled message is substituting in the message; a spare argument does not matter. */
  lemma {:induction false} CompileMeansSubstitute(msg: Bytes, i: nat, name: Bytes, used: bool)
    requires i <= |msg| && Acceptable(msg)
    requires used ==> forall j :: i <= j < |msg| ==> !PercentV(msg, j)
    ensures Format(Compile(msg, i), if used then [] else [name]) == Some(Substitute(msg, i, name))
    decreases |msg| - i
  {
    hide Format, AcceptableTo, Compile, Substitute;
    var args := if used then [] else [name];
    if i == |msg| {
      CompileEnd(msg);
      SubstituteEnd(msg, name);
      FormatEmpty(args);
    } else if PercentV(msg, i) {
      CompileStep(msg, i);
      SubstituteStep(msg, i, name);
      OnlyOne(msg, i);
      CompileMeansSubstitute(msg, i + 2, name, true);
      FormatName(Compile(msg, i + 2), name, []);
      assert [name] + [] == [name];
    } else {
      CompileStep(msg, i);
      SubstituteStep(msg, i, name);
      CompileMeansSubstitute(msg, i + 1, name, used);
      if msg[i] == '%' {
        FormatFour(Compile(msg, i + 1), args);
      } else {
        FormatPlain(msg[i], Compile(msg, i + 1), args);
      }
    }
  }

  predicate NoPercentV(msg: Bytes) {
    forall i :: 0 <= i < |msg| ==> !PercentV(msg, i)
  }

  /** A text with every percent sign doubled */
  function Doubled(text: Bytes): Bytes {
    if text == [] then [] else (if text[0] == '%' then "%%" else [text[0]]) + Doubled(text[1..])
  }

  /** `smfi_setreply` halves percent signs again. */
  lemma {:induction false} DoubledReads(text: Bytes)
    ensures Format(Doubled(text), []) == Some(text)
    decreases |text|
  {
    if text != [] {
      DoubledReads(text[1..]);
      var rest := Doubled(text[1..]);
      assert text == [text[0]] + text[1..];
      if text[0] == '%' {
        assert ("%%" + rest)[2..] == rest;
      } else {
        FormatPlain(text[0], rest, []);
      }
    }
  }

  lemma {:induction false} FormatConcat(a: Bytes, b: Bytes)
    requires Format(a, []).Some?
    ensures Format(a + b, []) == Prepend(Format(a, []).value, Format(b, []))
    decreases |a|
  {
    if a == [] {
      assert a + b == b;
      assert Format(b, []).Some? ==> [] + Format(b, []).value == Format(b, []).value;
    } else {
      var n := if a[0] == '%' then 2 else 1;
      assert (a + b)[n..] == a[n..] + b && (a + b)[0] == a[0] && (n == 2 ==> (a + b)[1] == a[1]);
      FormatConcat(a[n..], b);
      PrependTwice([a[0]], Format(a[n..], []).value, Format(b, []));
    }
  }

  lemma PrependTwice(a: Bytes, b: Bytes, c: Option<Bytes>)
    ensures Prepend(a, Prepend(b, c)) == Prepend(a + b, c)
  {
    if c.Some? {
      assert a + (b + c.value) == a + b + c.value;
    }
  }

  lemma {:induction false} SubstituteTail(msg: Bytes, i: nat, name: Bytes)
    requires i <= |msg| && forall j :: i <= j < |msg| ==> !PercentV(msg, j)
    ensures Substitute(msg, i, name) == Doubled(msg[i..])
    decreases |msg| - i
  {
    if i < |msg| {
      SubstituteTail(msg, i + 1, name);
      assert msg[i..][1..] == msg[i + 1..] && msg[i..][0] == msg[i];
    }
  }

  lemma {:induction false} SubstituteHead(a: Bytes, b: Bytes, i: nat, name: Bytes)
    requires i <= |a| && NoPercentV(a)
    ensures Substitute(a + "%v" + b, i, name) == Doubled(a[i..]) + Substitute(a + "%v" + b, |a|, name)
    decreases |a| - i
  {
    hide Substitute;
    var msg := a + "%v" + b;
    if i < |a| {
      SubstituteStep(msg, i, name);
      assert msg[i] == a[i] && (i + 1 < |a| ==> msg[i + 1] == a[i + 1]) && (i + 1 == |a| ==> msg[i + 1] == '%');
      assert !PercentV(a, i) && !PercentV(msg, i);
      SubstituteHead(a, b, i + 1, name);
      assert a[i..][1..] == a[i + 1..] && a[i..][0] == a[i];
      var one := if a[i] == '%' then "%%" else [a[i]];
      assert one + (Doubled(a[i + 1..]) + Substitute(msg, |a|, name)) ==
             one + Doubled(a[i + 1..]) + Substitute(msg, |a|, name);
    }
  }

  lemma SubstituteAtV(a: Bytes, b: Bytes, name: Bytes)
    requires NoPercentV(a) && NoPercentV(b)
    ensures Substitute(a + "%v" + b, 0, name) == Doubled(a) + (name + Doubled(b))
  {
    var msg := a + "%v" + b;
    SubstituteHead(a, b, 0, name);
    assert a[0..] == a;
    assert msg[|a|] == '%' && msg[|a| + 1] == 'v' && PercentV(msg, |a|);
    forall j | |a| + 2 <= j < |msg| ensures !PercentV(msg, j) {
      assert !PercentV(b, j - |a| - 2);
      assert msg[j] == b[j - |a| - 2];
      assert j + 1 < |msg| ==> msg[j + 1] == b[j - |a| - 1];
    }
    SubstituteTail(msg, |a| + 2, name);
    assert msg[|a| + 2..] == b;
  }

  /**
   What the sender of the mail reads: the option's text, with the name in the place of %v, if the name has no
   percent sign of its own.
   */
  lemma SenderReads(a: Bytes, b: Bytes, name: Bytes)
    requires NoPercentV(a) && NoPercentV(b) && '%' !in name
    ensures Format(Substitute(a + "%v" + b, 0, name), []) == Some(a + name + b)
    ensures Format(Substitute(a, 0, name), []) == Some(a)
  {
    hide Format, Substitute, Doubled;
    SubstituteAtV(a, b, name);
    SubstituteTail(a, 0, name);
    assert a[0..] == a;
    DoubledReads(a);
    DoubledReads(b);
    PlainReads(name);
    FormatConcat(name, Doubled(b));
    FormatConcat(Doubled(a), name + Doubled(b));
    assert a + (name + b) == a + name + b;
  }

  lemma {:induction false} PlainReads(name: Bytes)
    requires '%' !in name
    ensures Format(name, []) == Some(name)
    decreases |name|
  {
    if name != [] {
      assert name == [name[0]] + name[1..];
      PlainReads(name[1..]);
      FormatPlain(name[0], name[1..], []);
    }
  }

  lemma FormatEmpty(args: seq<Bytes>)
    ensures Format([], args) == Some([])
  {
  }

  lemma OnlyOne(msg: Bytes, i: nat)
    requires Acceptable(msg) && PercentV(msg, i)
    ensures forall j :: i < j < |msg| ==> !PercentV(msg, j)
  {
  }

  lemma CompileNext(msg: Bytes, i: nat, done: Bytes, piece: Bytes, next: nat)
    requires i < |msg| && next <= |msg| && Compile(msg, i) == piece + Compile(msg, next)
    requires Compile(msg, 0) == done + Compile(msg, i)
    ensures Compile(msg, 0) == done + piece + Compile(msg, next)
  {
  }

  /** Stores `piece` at `at`. */
  method Put(dst: array<char>, at: nat, piece: Bytes)
    requires at + |piece| <= dst.Length
    modifies dst
    ensures dst[..at + |piece|] == old(dst[..at]) + piece
  {
    forall i | 0 <= i < |piece| {
      dst[at + i] := piece[i];
    }
  }

  /** What was stored so far is the format up to position `i`. */
  ghost predicate Stored(msg: Bytes, i: nat, out: Bytes)
    requires i <= |msg|
  {
    out + Compile(msg, i) == Compile(msg, 0)
  }

  /** Stores the piece that the message calls for at position `i`. */
  method Emit(dst: array<char>, at: nat, msg: Bytes, i: nat) returns (n: nat, next: nat)
    requires at + 4 <= dst.Length && i < |msg| && Stored(msg, i, dst[..at])
    modifies dst
    ensures at <= n <= at + 4 && next == (if PercentV(msg, i) then i + 2 else i + 1) && next <= |msg|
    ensures Stored(msg, next, dst[..n])
  {
    hide Compile;
    CompileStep(msg, i);
    ghost var done := dst[..at];
    var piece := if PercentV(msg, i) then "%s" else if msg[i] == '%' then "%%%%" else [msg[i]];
    next := if PercentV(msg, i) then i + 2 else i + 1;
    n := at + |piece|;
    Put(dst, at, piece);
    CompileNext(msg, i, done, piece, next);
  }

  lemma NothingSeen(msg: Bytes)
    ensures AcceptableTo(msg, 0) && !SeenV(msg, 0)
  {
  }

  lemma NotAcceptable(msg: Bytes, i: nat)
    requires i < |msg| && (!IsPrint(msg[i]) || (PercentV(msg, i) && SeenV(msg, i)))
    ensures !Acceptable(msg)
  {
  }

  /** How acceptance goes on from position `i`. */
  lemma Looked(msg: Bytes, i: nat)
    requires i < |msg| && AcceptableTo(msg, i) && IsPrint(msg[i])
    ensures !PercentV(msg, i) ==> AcceptableTo(msg, i + 1) && SeenV(msg, i + 1) == SeenV(msg, i)
    ensures PercentV(msg, i) && !SeenV(msg, i) ==> AcceptableTo(msg, i + 2) && SeenV(msg, i + 2)
  {
    if PercentV(msg, i) {
      assert !PercentV(msg, i + 1);
    } else if SeenV(msg, i + 1) {
      assert SeenV(msg, i);
    }
  }

  /** The loop in `init_actions`: accepted exactly when the message is acceptable, and within the space allocated. */
  method CompileReject(msg: Bytes) returns (ok: bool, dst: array<char>, n: nat)
    ensures ok <==> Acceptable(msg)
    ensures dst.Length == 4 * |msg| + 1
    ensures ok ==> n < dst.Length && dst[..n] == Compile(msg, 0) && dst[n] == '\0'
  {
    hide Compile, AcceptableTo, SeenV, Stored, PercentV;
    NothingSeen(msg);
    dst, n := new char[4 * |msg| + 1], 0;
    var i, gotpctv := 0, false;
    StoredNothing(msg);
    assert dst[..0] == [];
    while i < |msg|
      invariant 0 <= i <= |msg| && n <= 4 * i && fresh(dst)
      invariant Stored(msg, i, dst[..n])
      invariant AcceptableTo(msg, i) && gotpctv == SeenV(msg, i)
    {
      if !IsPrint(msg[i]) {
        NotAcceptable(msg, i);
        return false, dst, n;
      }
      Looked(msg, i);
      if PercentV(msg, i) {
        if gotpctv {
          NotAcceptable(msg, i);
          return false, dst, n;
        }
        gotpctv := true;
      }
      n, i := Emit(dst, n, msg, i);
    }
    StoredAll(msg, dst[..n]);
    ghost var out := dst[..n];
    dst[n] := '\0';
    assert dst[..n] == out;
    ok := true;
  }

  lemma StoredNothing(msg: Bytes)
    ensures Stored(msg, 0, [])
  {
    assert [] + Compile(msg, 0) == Compile(msg, 0);
  }

  lemma StoredAll(msg: Bytes, out: Bytes)
    requires Stored(msg, |msg|, out)
    ensures out == Compile(msg, 0)
  {
    CompileEnd(msg);
    assert out + [] == out;
  }

  lemma CompileStep(msg: Bytes, i: nat)
    requires i < |msg|
    ensures Compile(msg, i) ==
            if PercentV(msg, i) then "%s" + Compile(msg, i + 2)
            else if msg[i] == '%' then "%%%%" + Compile(msg, i + 1)
            else [msg[i]] + Compile(msg, i + 1)
  {
  }

  lemma SubstituteStep(msg: Bytes, i: nat, name: Bytes)
    requires i < |msg|
    ensures Substitute(msg, i, name) ==
            if PercentV(msg, i) then name + Substitute(msg, i + 2, name)
            else if msg[i] == '%' then "%%" + Substitute(msg, i + 1, name)
            else [msg[i]] + Substitute(msg, i + 1, name)
  {
  }

  lemma SubstituteEnd(msg: Bytes, name: Bytes)
    ensures Substitute(msg, |msg|, name) == []
  {
  }

  lemma CompileEnd(msg: Bytes)
    ensures Compile(msg, |msg|) == []
  {
  }
}

/**
 The VirusEvent command line: %v and %f in the option are replaced by fixed texts, in a buffer whose size
 comes from two counting passes.
 */
module VirusEvent {
  import opened Options
  import opened Commands

  /** Whether % and `c` stand at position `i`. */
  predicate Mark(s: Bytes, i: nat, c: char) {
    i + 1 < |s| && s[i] == '%' && s[i + 1] == c
  }

  /** How many marks there are from `i` on. */
  function Count(s: Bytes, i: nat, c: char): nat
    requires i <= |s|
    decreases |s| - i
  {
    if i == |s| then 0 else (if Mark(s, i, c) then 1 else 0) + Count(s, i + 1, c)
  }

  /** The option from `i` on with both marks replaced. */
  function Expand(s: Bytes, i: nat, virus: Bytes, file: Bytes): Bytes
    requires i <= |s|
    decreases |s| - i
  {
    if i == |s| then []
    else if Mark(s, i, 'v') then virus + Expand(s, i + 2, virus, file)
    else if Mark(s, i, 'f') then file + Expand(s, i + 2, virus, file)
    else [s[i]] + Expand(s, i + 1, virus, file)
  }

  lemma {:induction false} ExpandSuffix(s: Bytes, t: Bytes, i: nat, virus: Bytes, file: Bytes)
    requires i <= |t| <= |s| && t == s[|s| - |t|..]
    ensures Expand(s, |s| - |t| + i, virus, file) == Expand(t, i, virus, file)
    decreases |t| - i
  {
    hide Expand;
    var n := |s| - |t|;
    ExpandEnd(s, virus, file);
    ExpandEnd(t, virus, file);
    if i < |t| {
      ExpandStep(s, n + i, virus, file);
      ExpandStep(t, i, virus, file);
      assert s[n + i] == t[i] && (i + 1 < |t| ==> s[n + i + 1] == t[i + 1]);
      assert Mark(s, n + i, 'v') == Mark(t, i, 'v') && Mark(s, n + i, 'f') == Mark(t, i, 'f');
      ExpandSuffix(s, t, if Mark(t, i, 'v') || Mark(t, i, 'f') then i + 2 else i + 1, virus, file);
    }
  }

  lemma {:induction false} ExpandHead(a: Bytes, rest: Bytes, i: nat, virus: Bytes, file: Bytes)
    requires i <= |a| && rest != [] && rest[0] == '%'
    ensures Expand(a + rest, i, virus, file) == Expand(a, i, virus, file) + Expand(a + rest, |a|, virus, file)
    decreases |a| - i
  {
    hide Expand;
    var s := a + rest;
    ExpandEnd(a, virus, file);
    if i < |a| {
      assert s[i] == a[i] && s[i + 1] == if i + 1 < |a| then a[i + 1] else '%';
      assert Mark(s, i, 'v') == Mark(a, i, 'v') && Mark(s, i, 'f') == Mark(a, i, 'f');
      ExpandStep(s, i, virus, file);
      ExpandStep(a, i, virus, file);
      var next := if Mark(a, i, 'v') || Mark(a, i, 'f') then i + 2 else i + 1;
      ExpandHead(a, rest, next, virus, file);
    }
  }

  lemma ExpandEnd(s: Bytes, virus: Bytes, file: Bytes)
    ensures Expand(s, |s|, virus, file) == []
  {
  }

  /** %v gives the one text and %f the other, wherever they stand; what is around them is not touched by it. */
  lemma MarkReplaced(a: Bytes, c: char, b: Bytes, virus: Bytes, file: Bytes)
    requires c == 'v' || c == 'f'
    ensures Expand(a + ("%" + [c] + b), 0, virus, file) ==
            Expand(a, 0, virus, file) + (if c == 'v' then virus else file) + Expand(b, 0, virus, file)
  {
    hide Expand;
    var rest := "%" + [c] + b;
    var s := a + rest;
    ExpandHead(a, rest, 0, virus, file);
    assert s[|a|] == '%' && s[|a| + 1] == c && Mark(s, |a|, c);
    ExpandStep(s, |a|, virus, file);
    assert b == s[|s| - |b|..];
    ExpandSuffix(s, b, 0, virus, file);
  }

  /** A text without marks stays as it is. */
  lemma {:induction false} PlainStays(s: Bytes, i: nat, virus: Bytes, file: Bytes)
    requires i <= |s| && forall j :: 0 <= j < |s| ==> !Mark(s, j, 'v') && !Mark(s, j, 'f')
    ensures Expand(s, i, virus, file) == s[i..]
    decreases |s| - i
  {
    if i < |s| {
      PlainStays(s, i + 1, virus, file);
    }
  }

  /** `strstr` for a mark, from `i` on */
  method FindMark(s: Bytes, i: nat, c: char) returns (at: Option<nat>)
    requires i <= |s|
    ensures at.Some? ==> i <= at.value && Mark(s, at.value, c) && Count(s, i, c) == Count(s, at.value, c)
    ensures at.None? ==> Count(s, i, c) == 0
  {
    var k := i;
    while k < |s|
      invariant i <= k <= |s| && Count(s, i, c) == Count(s, k, c)
    {
      if k + 1 < |s| && s[k] == '%' && s[k + 1] == c {
        return Some(k);
      }
      k := k + 1;
    }
    return None;
  }

  /** A counting loop of `virusaction` */
  method CountMarks(s: Bytes, c: char) returns (n: nat)
    requires c != '%'
    ensures n == Count(s, 0, c)
  {
    n := 0;
    var pt: nat := 0;
    while true
      invariant pt <= |s| && n + Count(s, pt, c) == Count(s, 0, c)
      decreases |s| - pt
    {
      var at := FindMark(s, pt, c);
      if at.None? {
        return;
      }
      SkipMark(s, at.value, c);
      pt, n := at.value + 2, n + 1;
    }
  }

  lemma SkipMark(s: Bytes, i: nat, c: char)
    requires Mark(s, i, c) && c != '%'
    ensures Count(s, i, c) == 1 + Count(s, i + 2, c)
  {
    assert !Mark(s, i + 1, c);
  }

  /** The other mark cannot start within a mark either. */
  lemma PassMark(s: Bytes, i: nat, c: char, d: char)
    requires Mark(s, i, c) && c != '%' && d != c
    ensures Count(s, i, d) == Count(s, i + 2, d)
  {
    assert !Mark(s, i, d) && !Mark(s, i + 1, d);
  }

  lemma OneMore(a: nat, b: nat)
    ensures (1 + a) * b == b + a * b
  {
  }

  lemma ExpandStep(s: Bytes, i: nat, virus: Bytes, file: Bytes)
    requires i < |s|
    ensures Expand(s, i, virus, file) ==
            if Mark(s, i, 'v') then virus + Expand(s, i + 2, virus, file)
            else if Mark(s, i, 'f') then file + Expand(s, i + 2, virus, file)
            else [s[i]] + Expand(s, i + 1, virus, file)
  {
  }

  lemma CountPlain(s: Bytes, i: nat, c: char)
    requires i < |s| && !Mark(s, i, c)
    ensures Count(s, i, c) == Count(s, i + 1, c)
  {
  }

  /** The size that the counts give is enough, with two bytes to spare for every mark. */
  lemma {:induction false} ExpandSize(s: Bytes, i: nat, virus: Bytes, file: Bytes)
    requires i <= |s|
    ensures |Expand(s, i, virus, file)| + 2 * (Count(s, i, 'v') + Count(s, i, 'f')) ==
            |s| - i + Count(s, i, 'v') * |virus| + Count(s, i, 'f') * |file|
    decreases |s| - i
  {
    hide Expand, Count;
    if i == |s| {
      NothingLeft(s, virus, file);
    } else {
      ExpandStep(s, i, virus, file);
      if Mark(s, i, 'v') {
        SkipMark(s, i, 'v');
        PassMark(s, i, 'v', 'f');
        ExpandSize(s, i + 2, virus, file);
        OneMore(Count(s, i + 2, 'v'), |virus|);
      } else if Mark(s, i, 'f') {
        SkipMark(s, i, 'f');
        PassMark(s, i, 'f', 'v');
        ExpandSize(s, i + 2, virus, file);
        OneMore(Count(s, i + 2, 'f'), |file|);
      } else {
        CountPlain(s, i, 'v');
        CountPlain(s, i, 'f');
        ExpandSize(s, i + 1, virus, file);
      }
    }
  }

  lemma NothingLeft(s: Bytes, virus: Bytes, file: Bytes)
    ensures Expand(s, |s|, virus, file) == [] && Count(s, |s|, 'v') == 0 && Count(s, |s|, 'f') == 0
  {
  }

  /** A buffer from `calloc`, with a C string in it that ends at `j`. */
  ghost predicate StringAt(buffer: array<char>, j: nat, content: Bytes)
    reads buffer
  {
    && j == |content| && j < buffer.Length && buffer[..j] == content && '\0' !in content
    && forall k :: j <= k < buffer.Length ==> buffer[k] == '\0'
  }

  /** `strcat`: looks for the end of the string itself */
  method StrCat(buffer: array<char>, text: Bytes, ghost j: nat, ghost content: Bytes)
    requires StringAt(buffer, j, content) && '\0' !in text && j + |text| < buffer.Length
    modifies buffer
    ensures StringAt(buffer, j + |text|, content + text)
  {
    assert forall k :: 0 <= k < j ==> buffer[k] == content[k] && content[k] in content;
    var end := 0;
    while buffer[end] != '\0'
      invariant 0 <= end <= j
      decreases j - end
    {
      end := end + 1;
    }
    forall k | 0 <= k < |text| {
      buffer[end + k] := text[k];
    }
    assert buffer[..j + |text|] == content + text;
  }

  method PutChar(buffer: array<char>, j: nat, c: char, ghost content: Bytes)
    requires StringAt(buffer, j, content) && c != '\0' && j + 1 < buffer.Length
    modifies buffer
    ensures StringAt(buffer, j + 1, content + [c])
  {
    buffer[j] := c;
    assert buffer[..j + 1] == content + [c];
  }

  lemma Regroup(done: Bytes, piece: Bytes, rest: Bytes)
    ensures done + (piece + rest) == done + piece + rest
  {
  }

  /** The command line of `virusaction`: pure substitution, within the buffer. */
  method BuildCommand(s: Bytes, virus: Bytes, file: Bytes) returns (buffer: array<char>, j: nat)
    requires '\0' !in s && '\0' !in virus && '\0' !in file
    ensures StringAt(buffer, j, Expand(s, 0, virus, file))
  {
    hide Expand, StringAt;
    var v := CountMarks(s, 'v');
    var f := CountMarks(s, 'f');
    ExpandSize(s, 0, virus, file);
    buffer, j := new char[|s| + v * |virus| + f * |file| + 1](_ => '\0'), 0;
    ghost var whole, done := Expand(s, 0, virus, file), [];
    EmptyString(buffer);
    assert [] + whole == whole;
    assert |whole| < buffer.Length;
    var i := 0;
    while i < |s|
      invariant 0 <= i <= |s| && fresh(buffer) && j == |done|
      invariant StringAt(buffer, j, done) && done + Expand(s, i, virus, file) == whole
    {
      ExpandStep(s, i, virus, file);
      if i + 1 < |s| && s[i] == '%' && s[i + 1] == 'v' {
        Regroup(done, virus, Expand(s, i + 2, virus, file));
        StrCat(buffer, virus, j, done);
        done, j, i := done + virus, j + |virus|, i + 2;
      } else if i + 1 < |s| && s[i] == '%' && s[i + 1] == 'f' {
        Regroup(done, file, Expand(s, i + 2, virus, file));
        StrCat(buffer, file, j, done);
        done, j, i := done + file, j + |file|, i + 2;
      } else {
        Regroup(done, [s[i]], Expand(s, i + 1, virus, file));
        PutChar(buffer, j, s[i], done);
        done, j, i := done + [s[i]], j + 1, i + 1;
      }
    }
    NothingLeft(s, virus, file);
    assert done == whole;
  }

  lemma EmptyString(buffer: array<char>)
    requires buffer.Length > 0 && forall k :: 0 <= k < buffer.Length ==> buffer[k] == '\0'
    ensures StringAt(buffer, 0, [])
  {
  }
}

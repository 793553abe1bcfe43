/** Interned strings (crates/radlr-core/types/istring.rs): a string is a word of eight bytes, which holds the
    string itself when it fits, and otherwise a marked hash under which a shared store keeps the string. */
module InternedStrings {
  type Byte = bv8
  type Bytes = seq<Byte>

  /** The memory of a 64-bit word, lowest byte first. */
  type Word = w: seq<Byte> | |w| == 8 witness [0, 0, 0, 0, 0, 0, 0, 0]

  type Hash = Bytes -> Word

  type Store = map<Word, Bytes>

  const LARGE: Byte := 0x80

  // ----- tokens -----

  /** Strings that do not fit: more than eight bytes, or eight with the marking bit in use. */
  predicate IsHashed(s: Bytes) {
    |s| > 8 || (|s| == 8 && s[7] & LARGE != 0)
  }

  predicate IsSmall(w: Word) {
    w[7] & LARGE == 0
  }

  function Marked(w: Word): (m: Word)
    ensures !IsSmall(m)
  {
    w[7 := w[7] | LARGE]
  }

  function Padded(s: Bytes): (w: Word)
    requires |s| <= 8
    ensures forall i :: 0 <= i < 8 ==> w[i] == if i < |s| then s[i] else 0
  {
    s + seq(8 - |s|, _ => 0)
  }

  function TokenOf(hash: Hash, s: Bytes): Word {
    if IsHashed(s) then Marked(hash(s)) else Padded(s)
  }

  /** The number of bytes before the first NUL. */
  function NulAt(s: Bytes): (n: nat)
    ensures n <= |s| && (n < |s| ==> s[n] == 0) && forall i :: 0 <= i < n ==> s[i] != 0
  {
    if s == [] || s[0] == 0 then 0 else 1 + NulAt(s[1..])
  }

  /** What a token reads as; large tokens that the store does not know have no string. */
  function Read(store: Store, w: Word): Option {
    if IsSmall(w) then Some(w[..NulAt(w)]) else if w in store then Some(store[w]) else None
  }

  datatype Option = None | Some(value: Bytes)

  predicate NulFree(s: Bytes) {
    forall i :: 0 <= i < |s| ==> s[i] != 0
  }

  /** Without the NULs at its end. */
  function Stripped(s: Bytes): (r: Bytes)
    ensures r <= s && (r != [] ==> r[|r| - 1] != 0) && forall i :: |r| <= i < |s| ==> s[i] == 0
  {
    if s != [] && s[|s| - 1] == 0 then Stripped(s[..|s| - 1]) else s
  }

  // ----- the word as a number -----

  function AsU64(b: Bytes): nat {
    if b == [] then 0 else (b[0] as nat) + 0x100 * AsU64(b[1..])
  }

  lemma {:induction false} SameDigits(x: nat, y: nat, m: nat, n: nat)
    requires x < 0x100 && y < 0x100
    ensures x + 0x100 * m == y + 0x100 * n <==> x == y && m == n
  {
  }

  lemma {:induction false} SameByte(x: Byte, y: Byte)
    ensures x as nat == y as nat <==> x == y
    ensures x as nat < 0x100
  {
  }

  /** Comparing tokens as 64-bit numbers, as the program does, is comparing their bytes. */
  lemma {:induction false} EqualAsNumbers(a: Bytes, b: Bytes)
    requires |a| == |b|
    ensures AsU64(a) == AsU64(b) <==> a == b
  {
    if a != [] {
      EqualAsNumbers(a[1..], b[1..]);
      SameParts(a, b);
      FirstDigit(a[0], AsU64(a[1..]), b[0], AsU64(b[1..]));
    }
  }

  lemma {:induction false} SameParts(a: Bytes, b: Bytes)
    requires a != [] && b != []
    ensures a == b <==> a[0] == b[0] && a[1..] == b[1..]
  {
    assert a == [a[0]] + a[1..] && b == [b[0]] + b[1..];
  }

  lemma {:induction false} FirstDigit(x: Byte, m: nat, y: Byte, n: nat)
    ensures (x as nat) + 0x100 * m == (y as nat) + 0x100 * n <==> x == y && m == n
  {
    SameByte(x, y);
    SameByte(y, x);
    SameDigits(x as nat, y as nat, m, n);
  }

  // ----- tokens against strings -----

  lemma {:induction false} TokenIsSmall(hash: Hash, s: Bytes)
    ensures IsSmall(TokenOf(hash, s)) <==> !IsHashed(s)
  {
    if |s| < 8 {
      assert Padded(s)[7] == 0;
    }
  }

  /** The token of a string that is kept inline never is the token of one that is stored. */
  lemma {:induction false} InlineNeverStored(hash: Hash, s: Bytes, t: Bytes)
    requires IsHashed(s) && !IsHashed(t)
    ensures TokenOf(hash, s) != TokenOf(hash, t)
  {
    TokenIsSmall(hash, s);
    TokenIsSmall(hash, t);
  }

  lemma {:induction false} NoLonger(a: Bytes, b: Bytes, w: Word)
    requires |a| <= 8 && |b| <= 8 && (b != [] ==> b[|b| - 1] != 0)
    requires forall i :: 0 <= i < 8 ==> w[i] == if i < |a| then a[i] else 0
    requires forall i :: 0 <= i < 8 ==> w[i] == if i < |b| then b[i] else 0
    ensures |b| <= |a|
  {
    assert b == [] || w[|b| - 1] == b[|b| - 1];
  }

  lemma {:induction false} FirstNul(s: Bytes, n: nat)
    requires n <= |s| && (n < |s| ==> s[n] == 0) && forall i :: 0 <= i < n ==> s[i] != 0
    ensures NulAt(s) == n
  {
    if n > 0 {
      FirstNul(s[1..], n - 1);
    }
  }

  lemma {:induction false} PaddedEqual(s: Bytes, t: Bytes)
    requires |s| <= 8 && |t| <= 8
    ensures Padded(s) == Padded(t) <==> Stripped(s) == Stripped(t)
  {
    var a, b := Stripped(s), Stripped(t);
    assert forall i :: 0 <= i < 8 ==> Padded(s)[i] == if i < |a| then a[i] else 0;
    assert forall i :: 0 <= i < 8 ==> Padded(t)[i] == if i < |b| then b[i] else 0;
    if Padded(s) == Padded(t) {
      NoLonger(a, b, Padded(s));
      NoLonger(b, a, Padded(s));
      assert forall i :: 0 <= i < |a| ==> a[i] == Padded(s)[i] && b[i] == Padded(t)[i];
    }
  }

  /** Two strings get the same token exactly when both are inline and differ in trailing NULs at most, or both
      are stored and their marked hashes are the same. */
  lemma {:induction false} SameTokenExactly(hash: Hash, s: Bytes, t: Bytes)
    ensures TokenOf(hash, s) == TokenOf(hash, t) <==>
              if IsHashed(s) then IsHashed(t) && Marked(hash(s)) == Marked(hash(t))
              else !IsHashed(t) && Stripped(s) == Stripped(t)
  {
    TokenIsSmall(hash, s);
    TokenIsSmall(hash, t);
    if !IsHashed(s) && !IsHashed(t) {
      PaddedEqual(s, t);
    }
  }

  const A: Bytes := [0x61]
  const A_NUL: Bytes := [0x61, 0]

  /** A string and the same string with a NUL behind it get one token, and read back as the first. */
  lemma {:induction false} TrailingNulLost(hash: Hash, store: Store)
    ensures A != A_NUL && TokenOf(hash, A) == TokenOf(hash, A_NUL) && Read(store, TokenOf(hash, A_NUL)) == Some(A)
  {
    assert Stripped(A_NUL) == A_NUL[..1] == A;
    PaddedEqual(A, A_NUL);
    FirstNul(Padded(A), 1);
    assert Padded(A)[..1] == A;
  }

  /** Different strings that are kept in the store under the same token. */
  predicate Clash(hash: Hash, s: Bytes, t: Bytes) {
    s != t && IsHashed(s) && IsHashed(t) && Marked(hash(s)) == Marked(hash(t))
  }

  /** For strings without NULs and without a clash of hashes, tokens agree with plain string equality. */
  lemma {:induction false} TokensAgreeWithStrings(hash: Hash, s: Bytes, t: Bytes)
    requires NulFree(s) && NulFree(t)
    ensures (TokenOf(hash, s) == TokenOf(hash, t) <==> s == t) <==> !Clash(hash, s, t)
  {
    SameTokenExactly(hash, s, t);
    assert Stripped(s) == s && Stripped(t) == t;
  }

  lemma {:induction false} NulAtPadded(s: Bytes)
    requires |s| <= 8
    ensures var w := Padded(s); NulAt(w) == NulAt(s) && w[..NulAt(w)] == s[..NulAt(s)]
  {
    FirstNul(Padded(s), NulAt(s));
  }

  /** A token reads back as its string exactly when the string is stored under it, or is inline and has no NUL. */
  lemma {:induction false} ReadsBackExactly(hash: Hash, store: Store, s: Bytes)
    ensures var w := TokenOf(hash, s);
            Read(store, w) == Some(s) <==>
              if IsHashed(s) then w in store && store[w] == s else NulFree(s)
  {
    TokenIsSmall(hash, s);
    if !IsHashed(s) {
      NulAtPadded(s);
      assert s[..NulAt(s)] == s <==> NulAt(s) == |s|;
      assert NulAt(s) < |s| ==> s[NulAt(s)] == 0;
    }
  }

  // ----- the operations -----

  method FromBytes(hash: Hash, text: Bytes) returns (token: Word)
    ensures token == TokenOf(hash, text)
  {
    if text == [] {
      token := [0, 0, 0, 0, 0, 0, 0, 0];
    } else if |text| > 8 || (|text| == 8 && text[7] & LARGE > 0) {
      var val := hash(text);
      token := val[7 := val[7] | LARGE];
    } else {
      var val: Word := [0, 0, 0, 0, 0, 0, 0, 0];
      for off := 0 to |text|
        invariant forall i :: 0 <= i < 8 ==> val[i] == if i < off then text[i] else 0
      {
        val := val[off := text[off]];
      }
      if |text| < 8 {
        val := val[|text| := 0];
      }
      token := val;
    }
  }

  method SmallToStr(token: Word) returns (s: Bytes)
    ensures s == token[..NulAt(token)]
    ensures NulFree(s)
  {
    var len := 8;
    for i := 0 to 8
      invariant forall j :: 0 <= j < i ==> token[j] != 0
      invariant len == 8
    {
      if token[i] == 0 {
        len := i;
        break;
      }
    }
    s := token[..len];
  }

  /** What interning does to the store when nobody else uses it: the string stored first stays. */
  function Interned(hash: Hash, store: Store, s: Bytes): Store {
    var token := TokenOf(hash, s);
    if |s| > 7 && token !in store then store[token := s] else store
  }

  class IStringStore {
    var data: Store

    constructor ()
      ensures data == map[]
    {
      data := map[];
    }

    method InternToken(text: Bytes, token: Word) returns (r: Word)
      modifies this
      ensures r == token
      ensures data == if token in old(data) then old(data) else old(data)[token := text]
    {
      if token in data {
        return token;
      }
      data := data[token := text];
      return token;
    }

    /** Interns a string; eight bytes that are kept inline are stored as well. */
    method Intern(hash: Hash, text: Bytes) returns (token: Word)
      modifies this
      ensures token == TokenOf(hash, text)
      ensures data == Interned(hash, old(data), text)
    {
      token := FromBytes(hash, text);
      if |text| > 7 {
        token := InternToken(text, token);
      }
    }

    method ToStr(token: Word) returns (s: Option)
      ensures s == Read(data, token)
    {
      if !IsSmall(token) {
        if token in data {
          return Some(data[token]);
        }
        return None;
      }
      var small := SmallToStr(token);
      return Some(small);
    }
  }

  // ----- threads that share a store -----

  /** A thread that has found no binding for its string's token has let go of the lock, and is about to write. */
  datatype Thread = Idle | Writing(text: Bytes)

  /** The store, the threads, and the strings whose interning has come to an end. */
  datatype State = State(store: Store, threads: seq<Thread>, done: set<Bytes>)

  datatype Action = Call(thread: nat, text: Bytes) | Write(thread: nat)

  predicate Enabled(texts: set<Bytes>, s: State, a: Action) {
    && a.thread < |s.threads|
    && match a
       case Call(t, text) => s.threads[t].Idle? && text in texts
       case Write(t) => s.threads[t].Writing?
  }

  /** One step: all that a thread does under one lock. */
  function Next(hash: Hash, texts: set<Bytes>, s: State, a: Action): State
    requires Enabled(texts, s, a)
  {
    match a
    case Call(t, text) =>
      if |text| > 7 && TokenOf(hash, text) !in s.store then s.(threads := s.threads[t := Writing(text)])
      else s.(done := s.done + {text})
    case Write(t) =>
      var text := s.threads[t].text;
      State(s.store[TokenOf(hash, text) := text], s.threads[t := Idle], s.done + {text})
  }

  function Initial(n: nat): State {
    State(map[], seq(n, _ => Idle), {})
  }

  ghost predicate Steps(hash: Hash, texts: set<Bytes>, s: State, t: State) {
    exists a :: Enabled(texts, s, a) && t == Next(hash, texts, s, a)
  }

  /** A run of `n` threads that intern any of the texts, any number of times, in any interleaving. */
  ghost predicate Run(hash: Hash, texts: set<Bytes>, n: nat, run: seq<State>) {
    && run != [] && run[0] == Initial(n)
    && forall i :: 0 <= i < |run| - 1 ==> Steps(hash, texts, run[i], run[i + 1])
  }

  ghost predicate Keeps(a: Store, b: Store) {
    forall w :: w in a ==> w in b && b[w] == a[w]
  }

  /** No binding ever changes: each state of each run keeps the bindings of the states before. */
  ghost predicate BindingsStay(hash: Hash, texts: set<Bytes>, n: nat) {
    forall run: seq<State>, i, j :: Run(hash, texts, n, run) && 0 <= i <= j < |run| ==> Keeps(run[i].store, run[j].store)
  }

  ghost predicate NoClash(hash: Hash, texts: set<Bytes>) {
    forall s, t :: s in texts && t in texts ==> !Clash(hash, s, t)
  }

  lemma {:induction false} SameLongToken(hash: Hash, texts: set<Bytes>, s: Bytes, t: Bytes)
    requires NoClash(hash, texts) && s in texts && t in texts && |s| > 7 && |t| > 7
    requires TokenOf(hash, s) == TokenOf(hash, t)
    ensures s == t
  {
    SameTokenExactly(hash, s, t);
    if !IsHashed(s) {
      assert forall i :: 0 <= i < 8 ==> s[i] == Padded(s)[i] && t[i] == Padded(t)[i];
    }
  }

  /** Every binding is of a text under its own token, threads write texts, and what has been interned is there. */
  ghost predicate StoreInv(hash: Hash, texts: set<Bytes>, s: State) {
    && (forall w :: w in s.store ==> s.store[w] in texts && |s.store[w]| > 7 && TokenOf(hash, s.store[w]) == w)
    && (forall t :: 0 <= t < |s.threads| && s.threads[t].Writing? ==> s.threads[t].text in texts && |s.threads[t].text| > 7)
    && (forall x :: x in s.done ==> x in texts && (|x| > 7 ==> TokenOf(hash, x) in s.store))
  }

  lemma {:induction false} StepKeeps(hash: Hash, texts: set<Bytes>, s: State, a: Action)
    requires NoClash(hash, texts) && StoreInv(hash, texts, s) && Enabled(texts, s, a)
    ensures StoreInv(hash, texts, Next(hash, texts, s, a))
    ensures Keeps(s.store, Next(hash, texts, s, a).store)
  {
    if a.Write? {
      var text := s.threads[a.thread].text;
      var w := TokenOf(hash, text);
      if w in s.store {
        SameLongToken(hash, texts, s.store[w], text);
      }
    }
  }

  lemma {:induction false} RunKeeps(hash: Hash, texts: set<Bytes>, n: nat, run: seq<State>, i: nat, j: nat)
    requires NoClash(hash, texts) && Run(hash, texts, n, run) && i <= j < |run|
    ensures StoreInv(hash, texts, run[j]) && Keeps(run[i].store, run[j].store)
  {
    if j > 0 {
      RunKeeps(hash, texts, n, run, if i < j then i else j - 1, j - 1);
      var k := j - 1;
      assert Steps(hash, texts, run[k], run[k + 1]);
      var a :| Enabled(texts, run[k], a) && run[k + 1] == Next(hash, texts, run[k], a);
      StepKeeps(hash, texts, run[k], a);
    }
  }

  /** Two threads that both find no binding before either writes: the second write replaces the first. */
  lemma {:induction false} ClashOverwrites(hash: Hash, texts: set<Bytes>, n: nat, a: Bytes, b: Bytes) returns (run: seq<State>)
    requires n >= 2 && a in texts && b in texts && Clash(hash, a, b)
    ensures Run(hash, texts, n, run) && |run| == 5
    ensures TokenOf(hash, a) in run[3].store && run[3].store[TokenOf(hash, a)] == a
    ensures TokenOf(hash, a) in run[4].store && run[4].store[TokenOf(hash, a)] == b
  {
    var w := TokenOf(hash, a);
    assert w == TokenOf(hash, b);
    var s0 := Initial(n);
    var s1 := Next(hash, texts, s0, Call(0, a));
    var s2 := Next(hash, texts, s1, Call(1, b));
    var s3 := Next(hash, texts, s2, Write(0));
    var s4 := Next(hash, texts, s3, Write(1));
    run := [s0, s1, s2, s3, s4];
    assert s3.store == map[w := a] && s4.store == map[w := b];
    assert Steps(hash, texts, s0, s1) && Steps(hash, texts, s1, s2) && Steps(hash, texts, s2, s3) && Steps(hash, texts, s3, s4);
  }

  /** Under every interleaving of checks and writes no binding ever changes, exactly when no two texts clash. */
  lemma {:induction false} BindingsStayExactly(hash: Hash, texts: set<Bytes>, n: nat)
    requires n >= 2
    ensures BindingsStay(hash, texts, n) <==> NoClash(hash, texts)
  {
    if NoClash(hash, texts) {
      forall run: seq<State>, i, j | Run(hash, texts, n, run) && 0 <= i <= j < |run|
        ensures Keeps(run[i].store, run[j].store)
      {
        RunKeeps(hash, texts, n, run, i, j);
      }
    }
    if a, b :| a in texts && b in texts && Clash(hash, a, b) {
      var run := ClashOverwrites(hash, texts, n, a, b);
      var i, j := 3, 4;
      assert !Keeps(run[i].store, run[j].store);
    }
  }

  /** Once a text has been interned by any thread, its token reads back as the text, in every later state. */
  lemma {:induction false} InternedReadsBack(hash: Hash, texts: set<Bytes>, n: nat, run: seq<State>, i: nat, j: nat, text: Bytes)
    requires NoClash(hash, texts) && Run(hash, texts, n, run) && i <= j < |run| && text in run[i].done
    ensures Read(run[j].store, TokenOf(hash, text)) == Some(text) <==> IsHashed(text) || NulFree(text)
  {
    RunKeeps(hash, texts, n, run, 0, i);
    RunKeeps(hash, texts, n, run, i, j);
    ReadsBackExactly(hash, run[j].store, text);
    var w := TokenOf(hash, text);
    if IsHashed(text) {
      SameLongToken(hash, texts, run[j].store[w], text);
    }
  }

  /** With one thread alone, the check and the write amount to interning at once. */
  lemma {:induction false} AloneInternsAtOnce(hash: Hash, texts: set<Bytes>, s: State, t: nat, text: Bytes)
    requires t < |s.threads| && s.threads[t].Idle? && text in texts
    ensures var called := Next(hash, texts, s, Call(t, text));
            var after := if called.threads[t].Writing? then Next(hash, texts, called, Write(t)) else called;
            after == State(Interned(hash, s.store, text), s.threads, s.done + {text})
  {
    assert s.threads[t := Writing(text)][t := Idle] == s.threads;
  }
}

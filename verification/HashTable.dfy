/** The packed hash table behind a HASH_BRANCH instruction
    (crates/radlr-bytecode/build_bytecode.rs:487-559) and the chain walk the parser
    performs over it (crates/radlr-rust-runtime/kernel/parser_new.rs:522-553).

    A cell is one 32-bit word: an 11-bit key, an 11-bit offset and a 10-bit link biased
    by 512.  Keys are distributed over `2^b` home slots, where `b` is the floor of
    log2 of the number of pairs; a colliding pair goes to the first free slot and is
    appended to the chain of its home slot through a signed link. */
module HashTable {
  import opened Bits
  import opened Sequences

  datatype Pair = Pair(key: nat, offset: nat)

  /** A slot of the table: free, or a key, an offset and the signed distance to the next slot. */
  datatype Cell = Free | Used(key: nat, offset: nat, link: int)

  /** The outcome of a chain walk. `Lost` means that the walk left the table or did not end. */
  datatype Found = Hit(offset: nat) | Miss | Lost

  const MAX_FIELD := 0x7FF
  const MAX_ENTRIES := 512

  // ----- words -----

  ghost predicate Fits(c: Cell) {
    c.Used? ==> c.key <= MAX_FIELD && c.offset <= MAX_FIELD && -512 < c.link < 512
  }

  /** The 32-bit word of a cell; a free slot is the word 0. */
  function Word(c: Cell): nat
    requires Fits(c)
  {
    match c
    case Free => 0
    case Used(key, offset, link) => WordOf(key, offset, link + 512)
  }

  function WordOf(key: nat, offset: nat, link: nat): nat {
    key + offset * 0x800 + link * 0x40_0000
  }

  /** The word written for a new cell. */
  function PackBits(key: nat, offset: nat): nat {
    Or(Or(And(key, 0x7FF), Shl(And(offset, 0x7FF), 11)), Shl(512, 22))
  }

  /** The word written when a cell gets a successor. */
  function RelinkBits(word: nat, delta: int): nat
    requires -512 <= delta
  {
    Or(Shl(And(delta + 512, 0x3FF), 22), And(word, 0x3F_FFFF))
  }

  function KeyBits(word: nat): nat { And(word, 0x7FF) }

  function OffsetBits(word: nat): nat { And(Shr(word, 11), 0x7FF) }

  function LinkBits(word: nat): int { And(Shr(word, 22), 0x3FF) - 512 }

  lemma {:induction false} Widths()
    ensures Pow2(10) == 0x400 && Pow2(11) == 0x800 && Pow2(22) == 0x40_0000
  {
    assert Pow2(2) == 4 && Pow2(3) == 8;
    Pow2Sum(2, 3);
    Pow2Sum(5, 5);
    Pow2Sum(8, 3);
    Pow2Sum(5, 3);
    Pow2Sum(11, 11);
  }

  lemma {:induction false} BitsAsArithmetic(word: nat)
    ensures KeyBits(word) == word % 0x800
    ensures OffsetBits(word) == word / 0x800 % 0x800
    ensures LinkBits(word) == word / 0x40_0000 % 0x400 - 512
  {
    Widths();
    ShrIsDiv(word, 11);
    ShrIsDiv(word, 22);
    AndMask(word, 11);
    AndMask(Shr(word, 11), 11);
    AndMask(Shr(word, 22), 10);
  }

  lemma {:induction false} WordOfFields(key: nat, offset: nat, link: nat)
    requires key < 0x800 && offset < 0x800 && link < 0x400
    ensures var w := WordOf(key, offset, link);
            w % 0x800 == key && w / 0x800 % 0x800 == offset && w / 0x40_0000 % 0x400 == link && w < 0x1_0000_0000
  {
  }

  /** Masking and shifting the word of a used cell reads its three fields. */
  lemma {:induction false} WordFields(c: Cell)
    requires c.Used? && Fits(c)
    ensures KeyBits(Word(c)) == c.key && OffsetBits(Word(c)) == c.offset && LinkBits(Word(c)) == c.link
    ensures Word(c) < 0x1_0000_0000
  {
    BitsAsArithmetic(Word(c));
    WordOfFields(c.key, c.offset, c.link + 512);
  }

  /** What is left of a number in a field of 11 bits. */
  function Cut(v: nat): (r: nat)
    ensures r <= MAX_FIELD && (v <= MAX_FIELD ==> r == v)
  {
    v % 0x800
  }

  lemma {:induction false} MaskCuts(v: nat)
    ensures And(v, 0x7FF) == Cut(v)
  {
    Widths();
    AndMask(v, 11);
  }

  lemma {:induction false} CutBits(v: nat)
    ensures And(v, 0x7FF) == Cut(v) == And(Cut(v), 0x7FF)
  {
    MaskCuts(v);
    MaskCuts(Cut(v));
  }

  /** The word written for a new cell is that of an unlinked cell with what fits of its key and offset, and never
      the free word. */
  lemma {:induction false} PackedWord(key: nat, offset: nat)
    ensures PackBits(key, offset) == Word(Used(Cut(key), Cut(offset), 0)) != 0
  {
    Widths();
    CutBits(key);
    CutBits(offset);
    PackThree(Cut(key), Cut(offset), 512, 11, 11);
  }

  /** Relinking a cell keeps its key and its offset, and sets its link. */
  lemma {:induction false} RelinkedWord(c: Cell, delta: int)
    requires c.Used? && Fits(c) && -512 < delta < 512
    ensures RelinkBits(Word(c), delta) == Word(c.(link := delta))
  {
    Widths();
    PackTwo(delta + 512, Word(c), 10, 22);
    LowBits(c.key, c.offset, c.link + 512);
  }

  /** Why a table has at most 512 entries: a link of 512 or more, which a longer table can need, does not fit its
      field and is read back as one that points 1024 slots lower, before the start of the table. */
  lemma {:induction false} FarLinkWraps(c: Cell, delta: int)
    requires c.Used? && Fits(c) && 512 <= delta < 1536
    ensures LinkBits(RelinkBits(Word(c), delta)) == delta - 1024
  {
    var a := delta - 512;
    assert (delta + 512) % 0x400 == a;
    RelinkedBits(Word(c), delta, a);
    BitsAsArithmetic(RelinkBits(Word(c), delta));
    HighPart(Word(c) % 0x40_0000, a);
  }

  lemma {:induction false} RelinkedBits(word: nat, delta: int, a: nat)
    requires -512 <= delta && a == (delta + 512) % 0x400
    ensures RelinkBits(word, delta) == word % 0x40_0000 + a * 0x40_0000
  {
    Widths();
    AndMask(delta + 512, 10);
    AndFits(a, 10);
    PackTwo(a, word, 10, 22);
  }

  lemma {:induction false} HighPart(low: nat, a: nat)
    requires low < 0x40_0000 && a < 0x400
    ensures (low + a * 0x40_0000) / 0x40_0000 % 0x400 == a
  {
  }

  lemma {:induction false} LowBits(key: nat, offset: nat, link: nat)
    requires key < 0x800 && offset < 0x800
    ensures WordOf(key, offset, link) % 0x40_0000 == key + offset * 0x800
  {
  }

  lemma {:induction false} UsedIsNotZero(c: Cell)
    requires Fits(c)
    ensures Word(c) == 0 <==> c.Free?
  {
  }

  ghost predicate AllFit(t: seq<Cell>) {
    forall s :: 0 <= s < |t| ==> Fits(t[s])
  }

  ghost function Words(t: seq<Cell>): (w: seq<nat>)
    requires AllFit(t)
    ensures |w| == |t| && forall s :: 0 <= s < |t| ==> w[s] == Word(t[s])
  {
    seq(|t|, s requires 0 <= s < |t| => Word(t[s]))
  }

  // ----- home slots -----

  /** `f64::log2(n) as u32`, taken as the exact floor of the logarithm. */
  function FloorLog2(n: nat): nat
    requires n >= 1
  {
    if n == 1 then 0 else 1 + FloorLog2(n / 2)
  }

  lemma {:induction false} FloorLog2Bounds(n: nat)
    requires n >= 1
    ensures Pow2(FloorLog2(n)) <= n < 2 * Pow2(FloorLog2(n))
  {
    if n > 1 {
      FloorLog2Bounds(n / 2);
    }
  }

  /** The slot at which the walk for a key begins. */
  function Home(key: nat, b: nat): (h: nat)
    ensures h < Pow2(b)
  {
    AndMask(key, b);
    And(key, LowMask(b))
  }

  // ----- the two passes that fill the table -----

  /** First pass, one pair: take the home slot if it is free. */
  function Place(t: seq<Cell>, left: seq<Pair>, p: Pair, b: nat): (r: (seq<Cell>, seq<Pair>))
    requires Pow2(b) <= |t|
    ensures |r.0| == |t|
  {
    var h := Home(p.key, b);
    if t[h].Free? then (t[h := Used(p.key, p.offset, 0)], left) else (t, left + [p])
  }

  function EmptyCells(n: nat): (t: seq<Cell>)
    ensures |t| == n && forall s :: 0 <= s < n ==> t[s] == Free
  {
    seq(n, _ => Free)
  }

  function Distribute(pairs: seq<Pair>, b: nat, n: nat): (r: (seq<Cell>, seq<Pair>))
    requires Pow2(b) <= n
    ensures |r.0| == n
  {
    if pairs == [] then (EmptyCells(n), [])
    else
      var (t, left) := Distribute(pairs[..|pairs| - 1], b, n);
      Place(t, left, pairs[|pairs| - 1], b)
  }

  /** The last slot of the chain through `slot`; `fuel` bounds the walk. */
  function Tail(t: seq<Cell>, slot: nat, fuel: nat): (r: nat)
    requires slot < |t|
    ensures r < |t|
    decreases fuel
  {
    if fuel == 0 || t[slot].Free? || t[slot].link == 0 || !(0 <= slot + t[slot].link < |t|) then slot
    else Tail(t, slot + t[slot].link, fuel - 1)
  }

  function FirstFree(t: seq<Cell>, from: nat): (r: nat)
    requires from <= |t|
    ensures from <= r <= |t|
    ensures r < |t| ==> t[r].Free?
    ensures forall j :: from <= j < r ==> t[j].Used?
    decreases |t| - from
  {
    if from == |t| || t[from].Free? then from else FirstFree(t, from + 1)
  }

  /** Second pass, one pair: append it to the chain of its home slot. */
  function Append(t: seq<Cell>, p: Pair, b: nat): (r: seq<Cell>)
    requires Pow2(b) <= |t| <= MAX_ENTRIES
    ensures |r| == |t|
  {
    var tail := Tail(t, Home(p.key, b), |t|);
    var i := FirstFree(t, 0);
    if i == |t| || t[tail].Free? then t
    else t[tail := t[tail].(link := i - tail)][i := Used(p.key, p.offset, 0)]
  }

  function AppendAll(left: seq<Pair>, b: nat, t: seq<Cell>): (r: seq<Cell>)
    requires Pow2(b) <= |t| <= MAX_ENTRIES
    ensures |r| == |t|
  {
    if left == [] then t else Append(AppendAll(left[..|left| - 1], b, t), left[|left| - 1], b)
  }

  function TableBits(n: nat): (b: nat)
    requires n >= 1
    ensures Pow2(b) <= n
  {
    FloorLog2Bounds(n);
    FloorLog2(n)
  }

  function Table(pairs: seq<Pair>): (t: seq<Cell>)
    requires 1 <= |pairs| <= MAX_ENTRIES
    ensures |t| == |pairs|
  {
    var b := TableBits(|pairs|);
    var (t, left) := Distribute(pairs, b, |pairs|);
    AppendAll(left, b, t)
  }

  // ----- the reader -----

  /** The parser's walk over the words of a table: follow links until the key matches or the
      chain ends. */
  function Walk(words: seq<nat>, slot: int, key: nat, fuel: nat): Found
    decreases fuel
  {
    if fuel == 0 || !(0 <= slot < |words|) then Lost
    else if KeyBits(words[slot]) == key then Hit(OffsetBits(words[slot]))
    else if LinkBits(words[slot]) != 0 then Walk(words, slot + LinkBits(words[slot]), key, fuel - 1)
    else Miss
  }

  /** The walk of the parser for a key, in a table with `2^b` home slots. */
  function Lookup(words: seq<nat>, b: nat, key: nat): Found {
    Walk(words, key % Pow2(b), key, |words|)
  }

  // ----- chains -----

  function At(t: seq<Cell>, s: nat): Pair
    requires s < |t| && t[s].Used?
  {
    Pair(t[s].key, t[s].offset)
  }

  ghost predicate Stored(t: seq<Cell>, p: Pair) {
    exists s :: 0 <= s < |t| && t[s].Used? && At(t, s) == p
  }

  /** `chain` visits distinct slots whose keys share home `h`, starting at `h`, along the links. */
  ghost predicate IsChain(t: seq<Cell>, chain: seq<nat>, h: nat, b: nat) {
    && (forall j :: 0 <= j < |chain| ==>
          chain[j] < |t| && t[chain[j]].Used? && Home(t[chain[j]].key, b) == h)
    && (chain != [] ==> chain[0] == h)
    && (forall j, k :: 0 <= j < k < |chain| ==> chain[j] != chain[k])
    && (forall j :: 0 <= j < |chain| ==>
          t[chain[j]].link == if j + 1 < |chain| then chain[j + 1] as int - chain[j] as int else 0)
  }

  /** Every filled slot lies on the chain of its own home. */
  ghost predicate Linked(t: seq<Cell>, chains: seq<seq<nat>>, b: nat) {
    && |chains| == Pow2(b) <= |t|
    && (forall h :: 0 <= h < |chains| ==> IsChain(t, chains[h], h, b))
    && (forall s :: 0 <= s < |t| && t[s].Used? ==> s in chains[Home(t[s].key, b)])
  }

  function Filled(t: seq<Cell>): nat {
    if t == [] then 0 else Filled(t[..|t| - 1]) + if t[|t| - 1].Free? then 0 else 1
  }

  lemma {:induction false} FillOne(t: seq<Cell>, i: nat, c: Cell)
    requires i < |t| && t[i].Free? && c.Used?
    ensures Filled(t[i := c]) == Filled(t) + 1
  {
    var m := |t| - 1;
    if i < m {
      FillOne(t[..m], i, c);
      assert t[i := c][..m] == t[..m][i := c];
    } else {
      assert t[i := c][..m] == t[..m];
    }
  }

  lemma {:induction false} Refill(t: seq<Cell>, i: nat, c: Cell)
    requires i < |t| && t[i].Used? && c.Used?
    ensures Filled(t[i := c]) == Filled(t)
  {
    var m := |t| - 1;
    if i < m {
      Refill(t[..m], i, c);
      assert t[i := c][..m] == t[..m][i := c];
    } else {
      assert t[i := c][..m] == t[..m];
    }
  }

  lemma {:induction false} FullIffAllFilled(t: seq<Cell>)
    ensures Filled(t) <= |t|
    ensures Filled(t) == |t| <==> forall s :: 0 <= s < |t| ==> t[s].Used?
  {
    if t != [] {
      FullIffAllFilled(t[..|t| - 1]);
    }
  }

  lemma {:induction false} NothingFilled(t: seq<Cell>)
    requires forall s :: 0 <= s < |t| ==> t[s].Free?
    ensures Filled(t) == 0
  {
    if t != [] {
      NothingFilled(t[..|t| - 1]);
    }
  }

  lemma {:induction false} DistinctBounded(s: seq<nat>, n: nat)
    requires forall j :: 0 <= j < |s| ==> s[j] < n
    requires forall j, k :: 0 <= j < k < |s| ==> s[j] != s[k]
    ensures |s| <= n
  {
    if s != [] {
      assert s[0] < n;
      if i :| 0 <= i < |s| && s[i] == n - 1 {
        var rest := s[..i] + s[i + 1..];
        DistinctBounded(rest, n - 1);
        assert |rest| == |s| - 1;
      } else {
        DistinctBounded(s, n - 1);
      }
    }
  }

  // ----- first pass -----

  ghost predicate Distributed(pairs: seq<Pair>, b: nat, n: nat, t: seq<Cell>, left: seq<Pair>) {
    && |t| == n && Pow2(b) <= n
    && Filled(t) + |left| == |pairs|
    && (forall s :: 0 <= s < n && t[s].Used? ==>
          s < Pow2(b) && t[s].link == 0 && Home(t[s].key, b) == s && At(t, s) in pairs)
    && (forall p :: p in pairs ==> Stored(t, p) || p in left)
    && (forall p :: p in left ==> p in pairs && t[Home(p.key, b)].Used?)
  }

  lemma {:induction false} StoredElsewhere(t: seq<Cell>, i: nat, c: Cell, p: Pair)
    requires i < |t| && t[i].Free? && Stored(t, p)
    ensures Stored(t[i := c], p)
  {
    var s :| 0 <= s < |t| && t[s].Used? && At(t, s) == p;
    assert At(t[i := c], s) == p;
  }

  lemma {:induction false} PlaceCorrect(pairs: seq<Pair>, b: nat, n: nat, t: seq<Cell>, left: seq<Pair>, p: Pair)
    requires Distributed(pairs, b, n, t, left)
    ensures var (t', left') := Place(t, left, p, b); Distributed(pairs + [p], b, n, t', left')
  {
    var h := Home(p.key, b);
    if t[h].Free? {
      var c := Used(p.key, p.offset, 0);
      FillOne(t, h, c);
      assert At(t[h := c], h) == p;
      forall q | q in pairs + [p]
        ensures Stored(t[h := c], q) || q in left
      {
        if q in pairs && Stored(t, q) {
          StoredElsewhere(t, h, c, q);
        }
      }
    }
  }

  lemma {:induction false} DistributeCorrect(pairs: seq<Pair>, b: nat, n: nat)
    requires Pow2(b) <= n
    ensures Distributed(pairs, b, n, Distribute(pairs, b, n).0, Distribute(pairs, b, n).1)
  {
    if pairs == [] {
      NothingFilled(EmptyCells(n));
    } else {
      var init, p := Init(pairs), Last(pairs);
      DistributeCorrect(init, b, n);
      var r := Distribute(init, b, n);
      PlaceCorrect(init, b, n, r.0, r.1, p);
      SplitLast(pairs);
    }
  }

  lemma {:induction false} FirstChains(pairs: seq<Pair>, b: nat, n: nat, t: seq<Cell>, left: seq<Pair>)
    returns (chains: seq<seq<nat>>)
    requires Distributed(pairs, b, n, t, left)
    ensures Linked(t, chains, b)
  {
    chains := seq(Pow2(b), h requires 0 <= h < Pow2(b) => if t[h].Used? then [h] else []);
  }

  // ----- second pass -----

  lemma {:induction false} TailIsLast(t: seq<Cell>, chain: seq<nat>, h: nat, b: nat, j: nat, fuel: nat)
    requires IsChain(t, chain, h, b) && j < |chain| && fuel >= |chain| - 1 - j
    ensures Tail(t, chain[j], fuel) == Last(chain)
    decreases |chain| - j
  {
    var slot := chain[j];
    FollowLink(t, chain, h, b, j);
    if j + 1 < |chain| {
      TailIsLast(t, chain, h, b, j + 1, fuel - 1);
      assert slot + t[slot].link == chain[j + 1] < |t|;
    } else {
      assert t[slot].link == 0 && slot == Last(chain);
    }
  }

  /** What one appended pair changes: slot `i` is filled and the cell at `tail` points to it. */
  ghost predicate Appended(t: seq<Cell>, t': seq<Cell>, p: Pair, tail: nat, i: nat) {
    && |t'| == |t| && tail < |t| && i < |t| && i != tail && t[i].Free? && t[tail].Used?
    && t'[i].Used? && At(t', i) == p && t'[i].link == 0
    && t'[tail].Used? && At(t', tail) == At(t, tail) && t'[tail].link == i as int - tail as int
    && (forall s :: 0 <= s < |t| && s != i && s != tail ==> t'[s] == t[s])
  }

  lemma {:induction false} WritesAppend(t: seq<Cell>, tail: nat, linked: Cell, i: nat, p: Pair)
    requires tail < |t| && i < |t| && t[tail].Used? && t[i].Free?
    requires linked == t[tail].(link := i as int - tail as int)
    ensures var t' := t[tail := linked][i := Used(p.key, p.offset, 0)];
            Appended(t, t', p, tail, i) && Filled(t') == Filled(t) + 1
  {
    Refill(t, tail, linked);
    FillOne(t[tail := linked], i, Used(p.key, p.offset, 0));
  }

  lemma {:induction false} TailOfHome(t: seq<Cell>, chain: seq<nat>, key: nat, b: nat)
    requires IsChain(t, chain, Home(key, b), b) && chain != []
    ensures Home(key, b) < |t| && Tail(t, Home(key, b), |t|) == Last(chain) && t[Last(chain)].Used?
  {
    DistinctBounded(chain, |t|);
    TailIsLast(t, chain, Home(key, b), b, 0, |t|);
    assert Last(chain) == chain[|chain| - 1];
  }

  lemma {:induction false} AppendStep(t: seq<Cell>, chain: seq<nat>, p: Pair, b: nat) returns (t': seq<Cell>)
    requires Pow2(b) <= |t| <= MAX_ENTRIES
    requires IsChain(t, chain, Home(p.key, b), b) && chain != []
    requires Filled(t) < |t|
    ensures t' == Append(t, p, b) && Filled(t') == Filled(t) + 1
    ensures FirstFree(t, 0) < |t| && Appended(t, t', p, Last(chain), FirstFree(t, 0))
  {
    TailOfHome(t, chain, p.key, b);
    FullIffAllFilled(t);
    var tail: int, i: int := Last(chain), FirstFree(t, 0);
    var linked := t[tail].(link := i - tail);
    t' := t[tail := linked][i := Used(p.key, p.offset, 0)];
    WritesAppend(t, tail, linked, i, p);
  }

  lemma {:induction false} ChainGrows(t: seq<Cell>, t': seq<Cell>, chain: seq<nat>, h: nat, b: nat, p: Pair, i: nat)
    requires IsChain(t, chain, h, b) && chain != [] && h == Home(p.key, b)
    requires Appended(t, t', p, Last(chain), i)
    ensures IsChain(t', chain + [i], h, b)
  {
    var chain' := chain + [i];
    assert forall j :: 0 <= j < |chain| ==> chain'[j] == chain[j] && chain[j] != i;
    forall j | 0 <= j < |chain'|
      ensures chain'[j] < |t'| && t'[chain'[j]].Used? && Home(t'[chain'[j]].key, b) == h
      ensures t'[chain'[j]].link
           == if j + 1 < |chain'| then chain'[j + 1] as int - chain'[j] as int else 0
    {
      if j < |chain| {
        assert t'[chain[j]].key == t[chain[j]].key by {
          assert At(t', chain[j]) == At(t, chain[j]);
        }
      } else {
        assert At(t', i) == p;
      }
    }
  }

  lemma {:induction false} OtherChainKept(t: seq<Cell>, t': seq<Cell>, chain: seq<nat>, h: nat, b: nat, p: Pair, tail: nat, i: nat)
    requires IsChain(t, chain, h, b) && Appended(t, t', p, tail, i)
    requires Home(t[tail].key, b) != h
    ensures IsChain(t', chain, h, b)
  {
    forall j | 0 <= j < |chain|
      ensures t'[chain[j]] == t[chain[j]]
    {
    }
  }

  lemma {:induction false} LinkedAfterAppend(t: seq<Cell>, t': seq<Cell>, chains: seq<seq<nat>>, b: nat, p: Pair, i: nat)
    returns (chains': seq<seq<nat>>)
    requires Linked(t, chains, b) && chains[Home(p.key, b)] != []
    requires Appended(t, t', p, Last(chains[Home(p.key, b)]), i)
    ensures Linked(t', chains', b)
    ensures forall g :: 0 <= g < |chains| && chains[g] != [] ==> chains'[g] != []
  {
    var h := Home(p.key, b);
    var tail := Last(chains[h]);
    chains' := chains[h := chains[h] + [i]];
    ChainGrows(t, t', chains[h], h, b, p, i);
    forall g | 0 <= g < |chains'|
      ensures IsChain(t', chains'[g], g, b)
    {
      if g != h {
        OtherChainKept(t, t', chains[g], g, b, p, tail, i);
      }
    }
    forall s | 0 <= s < |t'| && t'[s].Used?
      ensures s in chains'[Home(t'[s].key, b)]
    {
      if s == i {
        assert At(t', i) == p;
        assert Last(chains[h] + [i]) == i;
      } else {
        assert t[s].Used? && At(t', s) == At(t, s);
        assert s in chains[Home(t[s].key, b)];
      }
    }
  }

  /** The state of the second pass: `rest` is still to be appended. */
  ghost predicate Chained(pairs: seq<Pair>, b: nat, t: seq<Cell>, chains: seq<seq<nat>>, rest: seq<Pair>) {
    && |t| == |pairs|
    && Linked(t, chains, b)
    && Filled(t) + |rest| == |pairs|
    && (forall s :: 0 <= s < |t| && t[s].Used? ==> At(t, s) in pairs)
    && (forall p :: p in pairs ==> Stored(t, p) || p in rest)
    && (forall p :: p in rest ==> p in pairs && chains[Home(p.key, b)] != [])
  }

  lemma {:induction false} StoredAfterAppend(t: seq<Cell>, t': seq<Cell>, p: Pair, tail: nat, i: nat, q: Pair)
    requires Appended(t, t', p, tail, i) && (Stored(t, q) || q == p)
    ensures Stored(t', q)
  {
    if q == p {
      assert At(t', i) == p;
    } else {
      var s :| 0 <= s < |t| && t[s].Used? && At(t, s) == q;
      assert t'[s].Used? && At(t', s) == q;
    }
  }

  lemma {:induction false} ChainedStep(pairs: seq<Pair>, b: nat, t: seq<Cell>, chains: seq<seq<nat>>, p: Pair, rest: seq<Pair>)
    returns (chains': seq<seq<nat>>)
    requires |pairs| <= MAX_ENTRIES
    requires Chained(pairs, b, t, chains, [p] + rest)
    ensures Chained(pairs, b, Append(t, p, b), chains', rest)
  {
    var h := Home(p.key, b);
    assert p in [p] + rest;
    var t' := AppendStep(t, chains[h], p, b);
    var i := FirstFree(t, 0);
    chains' := LinkedAfterAppend(t, t', chains, b, p, i);
    forall s | 0 <= s < |t'| && t'[s].Used?
      ensures At(t', s) in pairs
    {
      assert s == i || (t[s].Used? && At(t', s) == At(t, s));
    }
    forall q | q in pairs
      ensures Stored(t', q) || q in rest
    {
      if Stored(t, q) || q == p {
        StoredAfterAppend(t, t', p, Last(chains[h]), i, q);
      }
    }
    forall q | q in rest
      ensures q in pairs && chains'[Home(q.key, b)] != []
    {
      assert q in [p] + rest;
    }
  }

  lemma {:induction false} AppendAllCorrect(
    pairs: seq<Pair>, b: nat, t: seq<Cell>, chains: seq<seq<nat>>, left: seq<Pair>, k: nat)
    returns (t': seq<Cell>, chains': seq<seq<nat>>)
    requires |pairs| <= MAX_ENTRIES && k <= |left|
    requires Chained(pairs, b, t, chains, left)
    ensures t' == AppendAll(left[..k], b, t) && Chained(pairs, b, t', chains', left[k..])
  {
    if k == 0 {
      assert left[0..] == left;
      return t, chains;
    }
    t', chains' := AppendAllCorrect(pairs, b, t, chains, left, k - 1);
    DropFirst(left, k - 1);
    chains' := ChainedStep(pairs, b, t', chains', left[k - 1], left[k..]);
    TakeOneMore(left, k - 1);
    t' := Append(t', left[k - 1], b);
  }

  // ----- the finished table -----

  /** The table of the pairs is full: every pair found a slot, and no slot is left over. */
  ghost predicate Complete(pairs: seq<Pair>, b: nat, t: seq<Cell>, chains: seq<seq<nat>>) {
    Chained(pairs, b, t, chains, []) && forall s :: 0 <= s < |t| ==> t[s].Used?
  }

  lemma {:induction false} TableComplete(pairs: seq<Pair>) returns (chains: seq<seq<nat>>)
    requires 1 <= |pairs| <= MAX_ENTRIES
    ensures Complete(pairs, TableBits(|pairs|), Table(pairs), chains)
  {
    var b := TableBits(|pairs|);
    var r := Distribute(pairs, b, |pairs|);
    DistributeCorrect(pairs, b, |pairs|);
    var chains0 := FirstChains(pairs, b, |pairs|, r.0, r.1);
    var t;
    t, chains := AppendAllCorrect(pairs, b, r.0, chains0, r.1, |r.1|);
    assert r.1[..|r.1|] == r.1;
    FullIffAllFilled(t);
  }

  /** All keys and offsets fit their fields. */
  ghost predicate InRange(pairs: seq<Pair>) {
    forall p :: p in pairs ==> p.key <= MAX_FIELD && p.offset <= MAX_FIELD
  }

  /** What fits of the pairs. */
  function CutAll(pairs: seq<Pair>): (r: seq<Pair>)
    ensures |r| == |pairs| && forall i :: 0 <= i < |r| ==> r[i] == Pair(Cut(pairs[i].key), Cut(pairs[i].offset))
  {
    seq(|pairs|, i requires 0 <= i < |pairs| => Pair(Cut(pairs[i].key), Cut(pairs[i].offset)))
  }

  lemma {:induction false} CutInRange(pairs: seq<Pair>)
    ensures InRange(CutAll(pairs)) && (InRange(pairs) ==> CutAll(pairs) == pairs)
  {
    if InRange(pairs) {
      forall i | 0 <= i < |pairs|
        ensures CutAll(pairs)[i] == pairs[i]
      {
        assert pairs[i] in pairs;
      }
    }
  }

  lemma {:induction false} CutSnoc(pairs: seq<Pair>, p: Pair)
    ensures CutAll(pairs + [p]) == CutAll(pairs) + [Pair(Cut(p.key), Cut(p.offset))]
  {
  }

  /** Cutting a key off at 11 bits does not change its home. */
  lemma {:induction false} CutHome(key: nat, b: nat)
    requires Pow2(b) <= MAX_ENTRIES
    ensures Home(Cut(key), b) == Home(key, b)
  {
    BitsBelow(b);
    Pow2Sum(b, 11 - b);
    Widths();
    AndMask(key, b);
    AndMask(Cut(key), b);
    ModOfMod(key, Pow2(b), Pow2(11 - b));
  }

  lemma {:induction false} ModOfMod(a: nat, m: nat, k: nat)
    requires m >= 1 && k >= 1 && m * k >= 1
    ensures a % (m * k) % m == a % m
  {
    var n := m * k;
    var q, r := a / n, a % n;
    var q', r' := r / m, r % m;
    Regroup(m, k, q, q', r');
    DivModUnique(a, m, k * q + q', r');
  }

  lemma {:induction false} Regroup(m: nat, k: nat, q: nat, q': nat, r: nat)
    ensures (m * k) * q + (m * q' + r) == m * (k * q + q') + r
  {
    assert (m * k) * q == m * (k * q);
  }

  lemma {:induction false} BitsBelow(b: nat)
    requires Pow2(b) <= MAX_ENTRIES
    ensures b <= 9
  {
    if b > 9 {
      Widths();
      Pow2Sum(10, b - 10);
    }
  }

  ghost predicate DistinctKeys(pairs: seq<Pair>) {
    forall p, q :: p in pairs && q in pairs && p.key == q.key ==> p == q
  }

  lemma {:induction false} ChainedFits(pairs: seq<Pair>, b: nat, t: seq<Cell>, chains: seq<seq<nat>>, rest: seq<Pair>)
    requires |pairs| <= MAX_ENTRIES && InRange(pairs) && Chained(pairs, b, t, chains, rest)
    ensures AllFit(t)
  {
    forall s | 0 <= s < |t|
      ensures Fits(t[s])
    {
      if t[s].Used? {
        var chain := chains[Home(t[s].key, b)];
        assert At(t, s) in pairs && IsChain(t, chain, Home(t[s].key, b), b);
        assert s in chain;
        var j :| 0 <= j < |chain| && chain[j] == s;
        FollowLink(t, chain, Home(t[s].key, b), b, j);
        if j + 1 < |chain| {
          assert chain[j + 1] < |t|;
        }
      }
    }
  }

  lemma {:induction false} TableCellsFit(pairs: seq<Pair>)
    requires 1 <= |pairs| <= MAX_ENTRIES && InRange(pairs)
    ensures AllFit(Table(pairs))
  {
    var chains := TableComplete(pairs);
    ChainedFits(pairs, TableBits(|pairs|), Table(pairs), chains, []);
  }

  lemma {:induction false} FollowLink(t: seq<Cell>, chain: seq<nat>, h: nat, b: nat, j: nat)
    requires IsChain(t, chain, h, b) && j < |chain|
    ensures t[chain[j]].link == 0 <==> j + 1 == |chain|
    ensures j + 1 < |chain| ==> chain[j] + t[chain[j]].link == chain[j + 1]
  {
    assert t[chain[j]].link == if j + 1 < |chain| then chain[j + 1] as int - chain[j] as int else 0;
    if j + 1 < |chain| {
      assert chain[j] != chain[j + 1];
    }
  }

  /** One step of the walk, at a slot of a chain. */
  lemma {:induction false} WalkStep(t: seq<Cell>, slot: nat, next: int, key: nat, fuel: nat)
    requires AllFit(t) && slot < |t| && t[slot].Used? && fuel > 0 && next == slot + t[slot].link
    ensures Walk(Words(t), slot, key, fuel)
         == if t[slot].key == key then Hit(t[slot].offset)
            else if t[slot].link != 0 then Walk(Words(t), next, key, fuel - 1)
            else Miss
  {
    WordFields(t[slot]);
  }

  /** A walk over a chain that holds the key ends at the first cell with that key. */
  lemma {:induction false} WalkHits(t: seq<Cell>, chain: seq<nat>, h: nat, b: nat, j: nat, k: nat, fuel: nat)
    requires AllFit(t) && IsChain(t, chain, h, b) && j <= k < |chain| && fuel >= |chain| - j
    requires forall i :: j <= i < |chain| && t[chain[i]].key == t[chain[k]].key ==>
                          t[chain[i]].offset == t[chain[k]].offset
    ensures Walk(Words(t), chain[j], t[chain[k]].key, fuel) == Hit(t[chain[k]].offset)
    decreases |chain| - j
  {
    FollowLink(t, chain, h, b, j);
    if t[chain[j]].key != t[chain[k]].key {
      WalkHits(t, chain, h, b, j + 1, k, fuel - 1);
      WalkStep(t, chain[j], chain[j + 1], t[chain[k]].key, fuel);
    } else {
      WalkStep(t, chain[j], chain[j] + t[chain[j]].link, t[chain[k]].key, fuel);
    }
  }

  /** A walk over a chain that lacks the key ends with a miss. */
  lemma {:induction false} WalkMisses(t: seq<Cell>, chain: seq<nat>, h: nat, b: nat, j: nat, key: nat, fuel: nat)
    requires AllFit(t) && IsChain(t, chain, h, b) && j < |chain| && fuel >= |chain| - j
    requires forall i :: j <= i < |chain| ==> t[chain[i]].key != key
    ensures Walk(Words(t), chain[j], key, fuel) == Miss
    decreases |chain| - j
  {
    FollowLink(t, chain, h, b, j);
    if j + 1 < |chain| {
      WalkMisses(t, chain, h, b, j + 1, key, fuel - 1);
      WalkStep(t, chain[j], chain[j + 1], key, fuel);
    } else {
      WalkStep(t, chain[j], chain[j], key, fuel);
    }
  }

  lemma {:induction false} LookupPresent(pairs: seq<Pair>, b: nat, t: seq<Cell>, chains: seq<seq<nat>>, p: Pair)
    requires |pairs| <= MAX_ENTRIES && DistinctKeys(pairs)
    requires Complete(pairs, b, t, chains) && AllFit(t) && p in pairs
    ensures Lookup(Words(t), b, p.key) == Hit(p.offset)
  {
    var h := Home(p.key, b);
    AndMask(p.key, b);
    var s :| 0 <= s < |t| && t[s].Used? && At(t, s) == p;
    assert s in chains[h] && IsChain(t, chains[h], h, b);
    var k :| 0 <= k < |chains[h]| && chains[h][k] == s;
    forall i | 0 <= i < |chains[h]| && t[chains[h][i]].key == p.key
      ensures t[chains[h][i]].offset == p.offset
    {
      assert At(t, chains[h][i]) in pairs;
    }
    DistinctBounded(chains[h], |t|);
    WalkHits(t, chains[h], h, b, 0, k, |t|);
  }

  lemma {:induction false} LookupAbsent(pairs: seq<Pair>, b: nat, t: seq<Cell>, chains: seq<seq<nat>>, key: nat)
    requires |pairs| <= MAX_ENTRIES
    requires Complete(pairs, b, t, chains) && AllFit(t)
    requires forall p :: p in pairs ==> p.key != key
    ensures Lookup(Words(t), b, key) == Miss
  {
    var h := Home(key, b);
    AndMask(key, b);
    var c := Home(t[h].key, b);
    assert h in chains[c] && IsChain(t, chains[c], c, b);
    var j :| 0 <= j < |chains[c]| && chains[c][j] == h;
    forall i | 0 <= i < |chains[c]|
      ensures t[chains[c][i]].key != key
    {
      assert At(t, chains[c][i]) in pairs;
    }
    DistinctBounded(chains[c], |t|);
    WalkMisses(t, chains[c], c, b, j, key, |t|);
  }

  /** The words stand for the map of the pairs: the walk for a key ends, at the offset of the pair with that key if
      there is one and with a miss otherwise. */
  ghost predicate Refines(words: seq<nat>, b: nat, pairs: seq<Pair>, key: nat) {
    var found := Lookup(words, b, key);
    && (forall p :: p in pairs && p.key == key ==> found == Hit(p.offset))
    && ((forall p :: p in pairs ==> p.key != key) ==> found == Miss)
  }

  /** The packed table refines the map of its pairs. */
  lemma {:induction false} LookupCorrect(pairs: seq<Pair>, key: nat)
    requires 1 <= |pairs| <= MAX_ENTRIES && InRange(pairs) && DistinctKeys(pairs)
    ensures AllFit(Table(pairs)) && Refines(Words(Table(pairs)), FloorLog2(|pairs|), pairs, key)
  {
    var b, t := TableBits(|pairs|), Table(pairs);
    var chains := TableComplete(pairs);
    ChainedFits(pairs, b, t, chains, []);
    if p :| p in pairs && p.key == key {
      LookupPresent(pairs, b, t, chains, p);
    } else {
      LookupAbsent(pairs, b, t, chains, key);
    }
  }

  /** The walk finds keys and offsets of 11 bits only. */
  lemma {:induction false} WalkFindsSmall(words: seq<nat>, slot: int, key: nat, fuel: nat)
    ensures Walk(words, slot, key, fuel).Hit? ==> key <= MAX_FIELD && Walk(words, slot, key, fuel).offset <= MAX_FIELD
    decreases fuel
  {
    if fuel > 0 && 0 <= slot < |words| {
      BitsAsArithmetic(words[slot]);
      if KeyBits(words[slot]) != key && LinkBits(words[slot]) != 0 {
        WalkFindsSmall(words, slot + LinkBits(words[slot]), key, fuel - 1);
      }
    }
  }

  ghost predicate RefinesAll(words: seq<nat>, b: nat, pairs: seq<Pair>) {
    forall key :: Refines(words, b, pairs, key)
  }

  /** The words of the table that is built for any pairs, what does not fit of a key or an offset being lost. */
  ghost function BuiltWords(pairs: seq<Pair>): seq<nat>
    requires 1 <= |pairs| <= MAX_ENTRIES
  {
    CutInRange(pairs);
    TableCellsFit(CutAll(pairs));
    Words(Table(CutAll(pairs)))
  }

  /** The table that is built for any pairs refines their map if and only if all keys and offsets fit their fields. */
  lemma {:induction false} BuiltExactly(pairs: seq<Pair>)
    requires 1 <= |pairs| <= MAX_ENTRIES && DistinctKeys(pairs)
    ensures RefinesAll(BuiltWords(pairs), FloorLog2(|pairs|), pairs) <==> InRange(pairs)
  {
    CutInRange(pairs);
    var words, b := BuiltWords(pairs), FloorLog2(|pairs|);
    if InRange(pairs) {
      forall key
        ensures Refines(words, b, pairs, key)
      {
        LookupCorrect(pairs, key);
      }
    } else {
      var p :| p in pairs && !(p.key <= MAX_FIELD && p.offset <= MAX_FIELD);
      NotRefined(words, b, pairs, p);
    }
  }

  /** An offset of 0x800 is cut to 0, so that the lookup goes elsewhere. */
  lemma {:induction false} WideOffsetLost()
    ensures var pairs := [Pair(5, 0x800)];
            !RefinesAll(BuiltWords(pairs), FloorLog2(1), pairs)
  {
    var pairs := [Pair(5, 0x800)];
    assert pairs[0] in pairs;
    BuiltExactly(pairs);
  }

  lemma {:induction false} NotRefined(words: seq<nat>, b: nat, pairs: seq<Pair>, p: Pair)
    requires p in pairs && !(p.key <= MAX_FIELD && p.offset <= MAX_FIELD)
    ensures !Refines(words, b, pairs, p.key)
  {
    WalkFindsSmall(words, p.key % Pow2(b), p.key, |words|);
  }

  // ----- the builder -----

  /** The builder's own search for the end of a chain. */
  method FindTail(entries: array<nat>, key: nat, b: nat, ghost t: seq<Cell>, ghost chain: seq<nat>)
    returns (tail: nat)
    requires AllFit(t) && entries[..] == Words(t)
    requires IsChain(t, chain, Home(key, b), b) && chain != []
    ensures Home(key, b) < |t| && tail == Tail(t, Home(key, b), |t|) < |t| && t[tail].Used?
  {
    ghost var h := Home(key, b);
    TailOfHome(t, chain, key, b);
    tail := Home(key, b);
    ghost var j := 0;
    WordFields(t[tail]);
    var pointer := LinkBits(entries[tail]);
    while pointer != 0
      invariant 0 <= j < |chain| && tail == chain[j] && pointer == t[tail].link
      decreases |chain| - j
    {
      FollowLink(t, chain, h, b, j);
      tail := tail + pointer;
      j := j + 1;
      WordFields(t[tail]);
      pointer := LinkBits(entries[tail]);
    }
    FollowLink(t, chain, h, b, j);
  }

  method FindFree(entries: array<nat>, ghost t: seq<Cell>) returns (i: nat)
    requires AllFit(t) && entries[..] == Words(t)
    requires Filled(t) < |t|
    ensures i == FirstFree(t, 0) < |t|
  {
    FullIffAllFilled(t);
    i := 0;
    while i < entries.Length && entries[i] != 0
      invariant i <= |t| && FirstFree(t, i) == FirstFree(t, 0)
    {
      UsedIsNotZero(t[i]);
      i := i + 1;
    }
    if i < entries.Length {
      UsedIsNotZero(t[i]);
    }
  }

  lemma {:induction false} WordsUpdate(t: seq<Cell>, i: nat, c: Cell)
    requires AllFit(t) && i < |t| && Fits(c)
    ensures AllFit(t[i := c]) && Words(t[i := c]) == Words(t)[i := Word(c)]
  {
  }

  /** First pass over the pairs, filling the words of the table in place.  Only what fits of a key or an offset gets
      into the words. */
  method DistributeWords(pairs: seq<Pair>, entries: array<nat>, b: nat) returns (left: seq<Pair>)
    requires Pow2(b) <= entries.Length && Pow2(b) <= MAX_ENTRIES
    requires forall s :: 0 <= s < entries.Length ==> entries[s] == 0
    modifies entries
    ensures var (t, l) := Distribute(CutAll(pairs), b, entries.Length);
            CutAll(left) == l && AllFit(t) && entries[..] == Words(t)
  {
    left := [];
    var n := entries.Length;
    ghost var t := EmptyCells(n);
    assert pairs[..0] == [];
    for m := 0 to |pairs|
      invariant Distribute(CutAll(pairs[..m]), b, n) == (t, CutAll(left))
      invariant |t| == n && AllFit(t) && entries[..] == Words(t)
    {
      var p := pairs[m];
      ghost var c := Pair(Cut(p.key), Cut(p.offset));
      NextCut(pairs, m);
      DistributeSnoc(CutAll(pairs[..m]), c, b, n);
      CutHome(p.key, b);
      var h := Home(p.key, b);
      UsedIsNotZero(t[h]);
      if entries[h] == 0 {
        PackedWord(p.key, p.offset);
        WordsUpdate(t, h, Used(c.key, c.offset, 0));
        entries[h] := PackBits(p.key, p.offset);
        t := t[h := Used(c.key, c.offset, 0)];
      } else {
        CutSnoc(left, p);
        left := left + [p];
      }
    }
    assert pairs[..|pairs|] == pairs;
  }

  lemma {:induction false} NextCut(pairs: seq<Pair>, m: nat)
    requires m < |pairs|
    ensures CutAll(pairs[..m + 1]) == CutAll(pairs[..m]) + [Pair(Cut(pairs[m].key), Cut(pairs[m].offset))]
  {
    TakeOneMore(pairs, m);
    CutSnoc(pairs[..m], pairs[m]);
  }

  lemma {:induction false} DistributeSnoc(pairs: seq<Pair>, p: Pair, b: nat, n: nat)
    requires Pow2(b) <= n
    ensures var r := Distribute(pairs, b, n); Distribute(pairs + [p], b, n) == Place(r.0, r.1, p, b)
  {
    assert (pairs + [p])[..|pairs|] == pairs && (pairs + [p])[|pairs|] == p;
  }

  lemma {:induction false} WordsOfTwoWrites(t: seq<Cell>, prev: nat, i: nat, p: Pair) returns (t': seq<Cell>)
    requires |t| <= MAX_ENTRIES && AllFit(t) && prev < |t| && i < |t| && t[prev].Used?
    ensures t' == t[prev := t[prev].(link := i as int - prev as int)][i := Used(Cut(p.key), Cut(p.offset), 0)]
    ensures AllFit(t')
    ensures Words(t')
         == Words(t)[prev := RelinkBits(Words(t)[prev], i as int - prev as int)][i := PackBits(p.key, p.offset)]
  {
    var delta := i as int - prev as int;
    var linked := t[prev].(link := delta);
    RelinkedWord(t[prev], delta);
    WordsUpdate(t, prev, linked);
    PackedWord(p.key, p.offset);
    WordsUpdate(t[prev := linked], i, Used(Cut(p.key), Cut(p.offset), 0));
    t' := t[prev := linked][i := Used(Cut(p.key), Cut(p.offset), 0)];
  }

  lemma {:induction false} AppendWrites(t: seq<Cell>, p: Pair, b: nat, tail: nat, i: nat)
    requires Pow2(b) <= |t| <= MAX_ENTRIES
    requires tail == Tail(t, Home(p.key, b), |t|) && i == FirstFree(t, 0) < |t| && t[tail].Used?
    ensures Append(t, p, b)
         == t[tail := t[tail].(link := i as int - tail as int)][i := Used(p.key, p.offset, 0)]
  {
  }

  /** Second pass: link each leftover pair to the chain of its home slot. */
  method AppendWord(p: Pair, entries: array<nat>, b: nat, ghost c: Pair, ghost t: seq<Cell>, ghost chain: seq<nat>)
    returns (ghost t': seq<Cell>)
    requires Pow2(b) <= entries.Length <= MAX_ENTRIES && c == Pair(Cut(p.key), Cut(p.offset))
    requires AllFit(t) && entries[..] == Words(t)
    requires IsChain(t, chain, Home(c.key, b), b) && chain != [] && Filled(t) < |t|
    modifies entries
    ensures t' == Append(t, c, b) && AllFit(t') && entries[..] == Words(t')
  {
    CutHome(p.key, b);
    var prev: int := FindTail(entries, p.key, b, t, chain);
    var i: int := FindFree(entries, t);
    AppendWrites(t, c, b, prev, i);
    t' := WordsOfTwoWrites(t, prev, i, p);
    entries[prev] := RelinkBits(entries[prev], i - prev);
    entries[i] := PackBits(p.key, p.offset);
  }

  /** The second pass over the pairs that are left over. */
  method AppendWords(left: seq<Pair>, entries: array<nat>, b: nat, ghost cut: seq<Pair>, ghost t0: seq<Cell>,
                     ghost chains0: seq<seq<nat>>)
    requires |cut| == entries.Length <= MAX_ENTRIES && InRange(cut) && AllFit(t0) && entries[..] == Words(t0)
    requires Chained(cut, b, t0, chains0, CutAll(left))
    modifies entries
    ensures var t := AppendAll(CutAll(left), b, t0); AllFit(t) && entries[..] == Words(t)
  {
    ghost var t, chains, rest := t0, chains0, CutAll(left);
    assert rest[..0] == [] && rest[0..] == rest;
    for m := 0 to |left|
      invariant t == AppendAll(rest[..m], b, t0) && Chained(cut, b, t, chains, rest[m..])
      invariant AllFit(t) && entries[..] == Words(t)
    {
      ghost var c := rest[m];
      DropFirst(rest, m);
      TakeOneMore(rest, m);
      assert c in rest[m..] && c in cut;
      ghost var t' := AppendWord(left[m], entries, b, c, t, chains[Home(c.key, b)]);
      chains := ChainedStep(cut, b, t, chains, c, rest[m + 1..]);
      t := t';
    }
    assert rest[..|left|] == rest;
  }

  /** Builds the words of the table for 1 to 512 pairs, whether or not they fit. */
  method BuildTable(pairs: seq<Pair>) returns (words: seq<nat>)
    requires 1 <= |pairs| <= MAX_ENTRIES
    ensures words == BuiltWords(pairs)
  {
    var b := TableBits(|pairs|);
    ghost var cut := CutAll(pairs);
    CutInRange(pairs);
    var entries := new nat[|pairs|](_ => 0);
    var left := DistributeWords(pairs, entries, b);
    ghost var t0, rest := Distribute(cut, b, |pairs|).0, CutAll(left);
    DistributeCorrect(cut, b, |pairs|);
    ghost var chains := FirstChains(cut, b, |pairs|, t0, rest);
    AppendWords(left, entries, b, cut, t0, chains);
    words := entries[..];
  }
}

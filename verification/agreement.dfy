/** The two ends of a Huffman code agree: what build_tree emits, inflate_table decodes. */
module Agreement {
  import opened Bits
  import opened Canonical
  import opened SortedSymbols
  import opened HuffBits
  import opened DecodingTables
  import opened SymbolDecoding
  import opened BitLengths
  import opened BuildTrees

  /** send_bits of a code emits the canonical code's bits in order. */
  lemma SentCode(lens: seq<nat>, n: nat)
    requires Used(lens, n)
    ensures ToBits(Huff(lens, n), lens[n]) == Code(lens, n)
  {
    ToBitsLsb(Code(lens, n));
  }

  /** inflate_table never rejects the lengths of build_tree; at worst its table is too large. */
  lemma NeverRejected(freq: seq<nat>, dl: seq<nat>, maxCode: nat, desc: StaticDesc, t: CodeType, bits: nat)
    requires TreeLens(freq, dl, maxCode, desc)
    ensures ValidLens(dl[..maxCode + 1]) && Outcome(t, dl[..maxCode + 1], bits) != -1
  {
  }

  /** For every frequency table: the emitted code bits of a used symbol, followed by
      any bits or by none, decode to that symbol and exactly its own length. */
  lemma EncoderDecoderAgree(freq: seq<nat>, fc: seq<nat>, dl: seq<nat>, maxCode: nat, desc: StaticDesc,
                            t: CodeType, tab: seq<Entry>, root: nat, n: nat, rest: seq<bool>)
    requires TreeLens(freq, dl, maxCode, desc) && n <= maxCode < MaxSymbols(t) && n < |fc| && dl[n] != 0
    requires fc[n] == Huff(dl[..maxCode + 1], n) && TableFor(tab, root, t, dl[..maxCode + 1])
    ensures Lookup(tab, root, Lsb(ToBits(fc[n], dl[n]) + rest)) == FoundSymbol(t, n, dl[n])
  {
    var lens := dl[..maxCode + 1];
    var bits := Code(lens, n) + rest;
    hide Code, Kraft, Huff, TableFor;
    SentCode(lens, n);
    StepSym(lens, bits, n);
    LookupAgrees(tab, root, t, lens, bits);
  }

  /** A proper prefix of a code is never taken for a symbol. */
  lemma PartialCodeWaits(lens: seq<nat>, t: CodeType, tab: seq<Entry>, root: nat, n: nat, k: nat)
    requires |lens| <= MaxSymbols(t) && ValidLens(lens) && TableFor(tab, root, t, lens) && Kraft(lens) == UNIT
    requires Used(lens, n) && k < lens[n]
    ensures Lookup(tab, root, Lsb(Code(lens, n)[..k])).Found? && Lookup(tab, root, Lsb(Code(lens, n)[..k])).len > k
  {
    var bits := Code(lens, n)[..k];
    hide Code, Kraft, TableFor, Lookup;
    LookupAgrees(tab, root, t, lens, bits);
    if m: nat :| Starts(lens, bits, m) {
      assert Code(lens, m) <= Code(lens, n);
      if m != n { PrefixFree(lens, m, n); }
    }
  }
}

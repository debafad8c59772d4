/** The rank catalog of an IRC session: which channel mode flags are ranks,
    the prefix symbol each is shown with, and their precedence. */
module IrcRanks {
  import opened Text

  /** A channel rank: its mode flag, its display prefix and its precedence
      (0 is the highest rank). */
  datatype Rank = Rank(mode: char, symbol: char, order: int)

  /** The catalog, indexed both by mode flag and by prefix symbol. */
  datatype Ranks = Ranks(modes: map<char, Rank>, symbols: map<char, Rank>)

  const NoRanks := Ranks(map[], map[])

  /** `Ranks.add_rank`: register a rank under its flag and under its symbol. */
  function AddRank(rs: Ranks, mode: char, symbol: char, order: int): Ranks {
    var r := Rank(mode, symbol, order);
    Ranks(rs.modes[mode := r], rs.symbols[symbol := r])
  }

  /** The catalog a session starts with, before the server advertises its
      own: operator (`o`, shown `@`) above voice (`v`, shown `+`). */
  function DefaultRanks(): (r: Ranks)
    ensures r.modes == map['o' := Rank('o', '@', 0), 'v' := Rank('v', '+', 1)]
    ensures r.symbols == map['@' := Rank('o', '@', 0), '+' := Rank('v', '+', 1)]
  {
    AddRank(AddRank(NoRanks, 'o', '@', 0), 'v', '+', 1)
  }

  /** A fresh catalog holding the server's advertised PREFIX entries, added
      one by one in the order given (a later entry for the same flag or
      symbol wins). Nothing of the previous catalog is kept. */
  function FromPrefix(entries: seq<Rank>): (r: Ranks)
    ensures r.modes.Keys == set e | e in entries :: e.mode
    ensures r.symbols.Keys == set e | e in entries :: e.symbol
    decreases |entries|
  {
    if entries == [] then NoRanks
    else
      var e := Last(entries);
      var init := entries[..|entries| - 1];
      assert entries == init + [e];
      AddRank(FromPrefix(init), e.mode, e.symbol, e.order)
  }

  /** No two advertised entries share a flag or a symbol. */
  predicate Distinct(entries: seq<Rank>) {
    forall i, j :: 0 <= i < j < |entries| ==>
      entries[i].mode != entries[j].mode && entries[i].symbol != entries[j].symbol
  }

  /** Looking an advertised rank up by its flag or by its symbol gives back
      exactly the advertised entry, so flag and symbol determine each other. */
  lemma {:induction false} PrefixRoundTrip(entries: seq<Rank>)
    requires Distinct(entries)
    ensures forall e :: e in entries ==>
      && e.mode in FromPrefix(entries).modes
      && FromPrefix(entries).modes[e.mode] == e
      && e.symbol in FromPrefix(entries).symbols
      && FromPrefix(entries).symbols[e.symbol] == e
    decreases |entries|
  {
    if entries != [] {
      var last := Last(entries);
      var init := entries[..|entries| - 1];
      assert entries == init + [last];
      assert Distinct(init);
      PrefixRoundTrip(init);
      forall e | e in init
        ensures e.mode != last.mode && e.symbol != last.symbol
      {
        var i :| 0 <= i < |init| && init[i] == e;
        assert entries[i] == e && entries[|entries| - 1] == last;
      }
    }
  }

  /** The common `PREFIX=(ov)@+` catalog: `@` gives the rank with flag
      `o`, and `o` the rank shown as `@`; likewise `+` and `v`. */
  lemma OvRanks()
    ensures var r := FromPrefix([Rank('o', '@', 0), Rank('v', '+', 1)]);
      && r.symbols['@'].mode == 'o' && r.modes['o'].symbol == '@'
      && r.symbols['+'].mode == 'v' && r.modes['v'].symbol == '+'
  {
    var entries := [Rank('o', '@', 0), Rank('v', '+', 1)];
    assert Distinct(entries);
    PrefixRoundTrip(entries);
    assert entries[0] in entries && entries[1] in entries;
  }
}

/** Values shared by every part of the indexer model. */
module Common {

  /** The conventional optional value; `None` stands for a Java `null` result or a failed step. */
  datatype Option<+T> = None | Some(value: T)

  /** A Java `String` reference as the indexer stores it in a `HashSet<String>` or uses as an index key:
      either `null` or a string. */
  datatype Sym = Null | Sym(name: string)

  /** The non-null symbols of a set of strings. */
  function SymsOf(ss: set<string>): (r: set<Sym>)
    ensures forall s :: Sym(s) in r <==> s in ss
    ensures Null !in r
  {
    set s | s in ss :: Sym(s)
  }

  /** The non-null symbols of the strings of a sequence, order forgotten. */
  function SymsOfSeq(ss: seq<string>): (r: set<Sym>)
  {
    set i | 0 <= i < |ss| :: Sym(ss[i])
  }

  /** Taking the symbols of a suffix one string at a time, from the back, as the visitors' loops do. */
  lemma SymsOfSeqStep(ss: seq<string>, i: nat)
    requires i < |ss|
    ensures SymsOfSeq(ss[i..]) == {Sym(ss[i])} + SymsOfSeq(ss[i + 1..])
  {
    assert ss[i..] == [ss[i]] + ss[i + 1..];
  }
}

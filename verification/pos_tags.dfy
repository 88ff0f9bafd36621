/**
 Reduction of Penn Treebank part-of-speech tags to the four WordNet
 lexical categories. The tagger's fine-grained tag is inspected only
 through its first character.
 */
module PosTags {
  import opened Options
  import opened Text

  /** The WordNet lexical categories (`wordnet.ADJ`, `VERB`, `NOUN`, `ADV`). */
  datatype Cat = Adj | Verb | Noun | Adv

  /** The Treebank tag initial that selects each category. */
  function Initial(c: Cat): char {
    match c
    case Adj => 'J'
    case Verb => 'V'
    case Noun => 'N'
    case Adv => 'R'
  }

  /** `get_wordnet_pos`: prefix tests in the order J, V, N, R; `None` when
      no test matches, the empty tag included. */
  function WordnetPos(tag: string): (r: Option<Cat>)
    ensures forall c :: r == Some(c) <==> |tag| > 0 && tag[0] == Initial(c)
    ensures r == None <==> |tag| == 0 || forall c :: tag[0] != Initial(c)
  {
    if StartsWith(tag, "J") then Some(Adj)
    else if StartsWith(tag, "V") then Some(Verb)
    else if StartsWith(tag, "N") then Some(Noun)
    else if StartsWith(tag, "R") then Some(Adv)
    else None
  }

  /** No two categories share an initial, so the order of the tests
      cannot change the answer. */
  lemma InitialInjective(a: Cat, b: Cat)
    ensures Initial(a) == Initial(b) ==> a == b
  {
  }

  /** Two tags with the same first character (or both empty) map alike. */
  lemma FirstCharDetermines(t1: string, t2: string)
    requires (|t1| == 0 && |t2| == 0) || (|t1| > 0 && |t2| > 0 && t1[0] == t2[0])
    ensures WordnetPos(t1) == WordnetPos(t2)
  {
  }

  /** Whatever follows a category's initial is ignored. */
  lemma InitialSelects(c: Cat, rest: string)
    ensures WordnetPos([Initial(c)] + rest) == Some(c)
  {
  }

  /** Treebank tag families: the listed adjective, verb, noun and adverb
      tags map to their category (any other tag with the same initial is
      covered by `InitialSelects`). */
  lemma ContentTagFamilies()
    ensures WordnetPos("JJ") == WordnetPos("JJR") == WordnetPos("JJS") == Some(Adj)
    ensures WordnetPos("VB") == WordnetPos("VBD") == WordnetPos("VBG") == Some(Verb)
    ensures WordnetPos("VBN") == WordnetPos("VBP") == WordnetPos("VBZ") == Some(Verb)
    ensures WordnetPos("NN") == WordnetPos("NNS") == WordnetPos("NNP") == Some(Noun)
    ensures WordnetPos("RB") == WordnetPos("RBR") == WordnetPos("RBS") == Some(Adv)
  {
  }

  /** Function-word and punctuation tags map to no category. Only the
      initial counts, so the wh-adverb tag WRB maps to none while the
      particle tag RP lands on adverb. */
  lemma OtherTagFamilies()
    ensures WordnetPos("DT") == WordnetPos("IN") == WordnetPos("CC") == None
    ensures WordnetPos("") == WordnetPos(".") == WordnetPos("PRP") == WordnetPos("WRB") == None
    ensures WordnetPos("RP") == Some(Adv)
  {
  }
}

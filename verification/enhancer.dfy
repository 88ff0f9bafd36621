/**
 The prompt enhancer: every content word of a tagged prompt is annotated
 with the short name and definition of its first WordNet sense, and the
 results are joined with single spaces.

 The tokenizer and tagger are represented by their output, a sequence of
 (word, tag) pairs; WordNet is represented by a `Lexicon`, any function
 from a word and a category to the ordered list of senses it returns.
 */
module Enhancer {
  import opened Options
  import opened Text
  import opened PosTags

  /** A WordNet synset as the enhancer sees it: its canonical name
      (such as "car.n.01") and its gloss. */
  datatype Sense = Sense(name: string, definition: string)

  /** `wordnet.synsets(word, pos=cat)`, in the database's own order. */
  type Lexicon = (string, Cat) -> seq<Sense>

  /** A tagged token: (word, Treebank tag). */
  type Tagged = (string, string)

  /** `name.split('.')[0]`: the part of a synset name before its first dot,
      or the whole name when it has none. */
  function ShortName(name: string): (r: string)
    ensures '.' !in r
    ensures r <= name
    ensures |r| == |name| || name[|r|] == '.'
  {
    var parts := Split(name, '.');
    assert |parts| > 1 ==> Join(parts, ".") == parts[0] + "." + Join(parts[1..], ".");
    parts[0]
  }

  /** The three properties of `ShortName` pin it down: any dot-free prefix
      that ends at the end of the name or at a dot is the short name. */
  lemma ShortNameUnique(name: string, p: string)
    requires p <= name && '.' !in p
    requires |p| == |name| || name[|p|] == '.'
    ensures ShortName(name) == p
  {
  }

  /** The annotation text that follows the word. */
  function Annotation(sense: Sense): string {
    " (specifically: " + ShortName(sense.name) + ", meaning: " + sense.definition + ")"
  }

  /** The annotation opens with " (specifically: " (16 characters), then
      holds the dot-free short name, then ", meaning: " (11 characters),
      then the definition, and closes with ")": both fields can be read back
      from their positions. */
  lemma AnnotationFields(sense: Sense)
    ensures var a, k := Annotation(sense), |ShortName(sense.name)|;
      && |a| == 28 + k + |sense.definition|
      && a[..16] == " (specifically: "
      && a[16..16 + k] == ShortName(sense.name)
      && a[16 + k..27 + k] == ", meaning: "
      && a[27 + k..|a| - 1] == sense.definition
      && a[|a| - 1] == ')'
  {
  }

  /** `get_enhanced_word`: the word unchanged when the lexicon has no sense
      for it under `cat`, otherwise the word followed by the annotation of
      the first sense. */
  function EnhancedWord(lex: Lexicon, word: string, cat: Cat): (r: string)
    ensures r == word <==> lex(word, cat) == []
    ensures word <= r
    ensures lex(word, cat) != [] ==> r[|word|..] == Annotation(lex(word, cat)[0])
  {
    var senses := lex(word, cat);
    if senses == [] then word
    else
      var r := word + Annotation(senses[0]);
      assert r[|word|..] == Annotation(senses[0]);
      r
  }

  /** Only the first sense matters: two lexicons that agree on the first
      sense of (word, cat) annotate the word identically, whatever follows. */
  lemma FirstSenseWins(lex1: Lexicon, lex2: Lexicon, word: string, cat: Cat)
    requires lex1(word, cat) != [] && lex2(word, cat) != []
    requires lex1(word, cat)[0] == lex2(word, cat)[0]
    ensures EnhancedWord(lex1, word, cat) == EnhancedWord(lex2, word, cat)
  {
  }

  /** The loop body of `enhance_prompt`: a token whose tag has no WordNet
      category passes through; any other is enhanced under its category. */
  function EnhanceToken(lex: Lexicon, t: Tagged): (r: string)
    ensures t.0 <= r
    ensures r == t.0 <==> WordnetPos(t.1) == None || lex(t.0, WordnetPos(t.1).value) == []
    ensures r != t.0 ==> r[|t.0|..] == Annotation(lex(t.0, WordnetPos(t.1).value)[0])
  {
    var (word, tag) := t;
    match WordnetPos(tag)
    case None => word
    case Some(cat) => EnhancedWord(lex, word, cat)
  }

  /** The list built by the loop of `enhance_prompt`: one element per token,
      in token order, each the enhancement of its own token. */
  function EnhancedWords(lex: Lexicon, tagged: seq<Tagged>): (out: seq<string>)
    ensures |out| == |tagged|
    ensures forall i :: 0 <= i < |tagged| ==> out[i] == EnhanceToken(lex, tagged[i])
  {
    if tagged == [] then []
    else [EnhanceToken(lex, tagged[0])] + EnhancedWords(lex, tagged[1..])
  }

  /** `enhance_prompt` after tokenizing and tagging: the enhanced words
      joined with single spaces. */
  function EnhancePrompt(lex: Lexicon, tagged: seq<Tagged>): (r: string)
    ensures tagged == [] ==> r == ""
    ensures |tagged| == 1 ==> r == EnhanceToken(lex, tagged[0])
    ensures tagged != [] ==> tagged[0].0 <= r
  {
    Join(EnhancedWords(lex, tagged), " ")
  }

  /** The words of a tagged sequence, tags dropped. */
  function Words(tagged: seq<Tagged>): seq<string>
  {
    seq(|tagged|, i requires 0 <= i < |tagged| => tagged[i].0)
  }

  /** Enhancement is token-local: the words of a concatenation are the
      concatenation of the words. */
  lemma EnhancedWordsAppend(lex: Lexicon, a: seq<Tagged>, b: seq<Tagged>)
    ensures EnhancedWords(lex, a + b) == EnhancedWords(lex, a) + EnhancedWords(lex, b)
  {
  }

  /** Enhancing two token runs and joining them with one space is enhancing
      their concatenation. */
  lemma EnhancePromptAppend(lex: Lexicon, a: seq<Tagged>, b: seq<Tagged>)
    requires a != [] && b != []
    ensures EnhancePrompt(lex, a + b) == EnhancePrompt(lex, a) + " " + EnhancePrompt(lex, b)
  {
    EnhancedWordsAppend(lex, a, b);
    JoinAppend(EnhancedWords(lex, a), EnhancedWords(lex, b), " ");
  }

  /** A prompt of function words and punctuation only comes back as its
      tokens joined with single spaces, whatever the lexicon holds. */
  lemma FunctionWordsPassThrough(lex: Lexicon, tagged: seq<Tagged>)
    requires forall i :: 0 <= i < |tagged| ==> WordnetPos(tagged[i].1) == None
    ensures EnhancePrompt(lex, tagged) == Join(Words(tagged), " ")
  {
    assert EnhancedWords(lex, tagged) == Words(tagged);
  }

  /** A lexicon that knows no word leaves every token as it was. */
  lemma EmptyLexiconPassThrough(lex: Lexicon, tagged: seq<Tagged>)
    requires forall w, c :: lex(w, c) == []
    ensures EnhancePrompt(lex, tagged) == Join(Words(tagged), " ")
  {
    assert EnhancedWords(lex, tagged) == Words(tagged);
  }

  /** For one or more tokens, none of them annotated (no category or no
      sense) and none containing a space, splitting the result at spaces
      gives back exactly the words. */
  lemma PassThroughSplits(lex: Lexicon, tagged: seq<Tagged>)
    requires tagged != []
    requires forall i :: 0 <= i < |tagged| ==> EnhanceToken(lex, tagged[i]) == tagged[i].0
    requires forall i :: 0 <= i < |tagged| ==> ' ' !in tagged[i].0
    ensures Split(EnhancePrompt(lex, tagged), ' ') == Words(tagged)
  {
    assert EnhancedWords(lex, tagged) == Words(tagged);
    SplitJoin(Words(tagged), ' ');
  }

  /** One-to-one correspondence in the joined text: the enhancement of the
      i-th token sits between the enhanced tokens before it and those after
      it, set off by exactly one space on each side that has neighbours. */
  lemma {:induction false} EnhancePromptAt(lex: Lexicon, tagged: seq<Tagged>, i: nat)
    requires i < |tagged|
    ensures EnhancePrompt(lex, tagged)
         == (if i == 0 then "" else EnhancePrompt(lex, tagged[..i]) + " ")
          + EnhanceToken(lex, tagged[i])
          + (if i == |tagged| - 1 then "" else " " + EnhancePrompt(lex, tagged[i + 1..]))
  {
    var left := if i == 0 then "" else EnhancePrompt(lex, tagged[..i]) + " ";
    var mid := EnhanceToken(lex, tagged[i]);
    var tail := if i == |tagged| - 1 then "" else " " + EnhancePrompt(lex, tagged[i + 1..]);
    var right := tagged[i..];
    EnhancePromptFrom(lex, tagged, i);
    assert EnhancePrompt(lex, tagged) == left + EnhancePrompt(lex, right) by {
      if 0 < i {
        assert tagged == tagged[..i] + right;
        EnhancePromptAppend(lex, tagged[..i], right);
      } else {
        assert tagged == right;
      }
    }
    ConcatAssoc(left, mid, tail);
  }

  /** Concatenation is associative. */
  lemma ConcatAssoc(x: string, y: string, z: string)
    ensures x + (y + z) == x + y + z
  {
  }

  /** The enhanced suffix starting at token i is that token's enhancement,
      then, if more tokens follow, one space and their enhanced prompt. */
  lemma EnhancePromptFrom(lex: Lexicon, tagged: seq<Tagged>, i: nat)
    requires i < |tagged|
    ensures EnhancePrompt(lex, tagged[i..])
         == EnhanceToken(lex, tagged[i])
          + (if i == |tagged| - 1 then "" else " " + EnhancePrompt(lex, tagged[i + 1..]))
  {
    if i < |tagged| - 1 {
      assert tagged[i..] == [tagged[i]] + tagged[i + 1..];
      EnhancePromptCons(lex, tagged[i], tagged[i + 1..]);
    } else {
      assert tagged[i..] == [tagged[i]];
    }
  }

  /** An annotated token reads `word (specifically: short, meaning: def)`
      for the first sense the lexicon gives under the token's category. */
  lemma AnnotatedToken(lex: Lexicon, t: Tagged, c: Cat, short: string)
    requires WordnetPos(t.1) == Some(c) && lex(t.0, c) != []
    requires ShortName(lex(t.0, c)[0].name) == short
    ensures EnhanceToken(lex, t)
         == t.0 + " (specifically: " + short + ", meaning: " + lex(t.0, c)[0].definition + ")"
  {
  }

  /** The verb of the example below: its one sense is used. */
  lemma ExampleVerb(lex: Lexicon)
    requires lex("Imagine", Verb) == [Sense("imagine.v.01", "picture")]
    ensures EnhanceToken(lex, ("Imagine", "VB"))
         == "Imagine" + " (specifically: " + "imagine" + ", meaning: " + "picture" + ")"
  {
    ShortNameUnique("imagine.v.01", "imagine");
    AnnotatedToken(lex, ("Imagine", "VB"), Verb, "imagine");
  }

  /** The annotated noun of the example below: of its two senses only the
      first is used. */
  lemma ExampleNoun(lex: Lexicon)
    requires lex("cars", Noun) == [Sense("car.n.01", "auto"), Sense("car.n.02", "cart")]
    ensures EnhanceToken(lex, ("cars", "NNS"))
         == "cars" + " (specifically: " + "car" + ", meaning: " + "auto" + ")"
  {
    ShortNameUnique("car.n.01", "car");
    AnnotatedToken(lex, ("cars", "NNS"), Noun, "car");
  }

  /** The tokens of the example below that pass through: the determiner
      and the wh-adverb have no category, and the lexicon has no noun
      sense for "world". */
  lemma ExamplePassThrough(lex: Lexicon)
    requires lex("world", Noun) == []
    ensures EnhanceToken(lex, ("a", "DT")) == "a"
    ensures EnhanceToken(lex, ("world", "NN")) == "world"
    ensures EnhanceToken(lex, ("where", "WRB")) == "where"
  {
    assert WordnetPos("DT") == None;
    assert WordnetPos("NN") == Some(Noun);
    assert WordnetPos("WRB") == None;
  }

  /** Enhancing a token followed by at least one more: the first token's
      enhancement, one space, then the enhancement of the rest. */
  lemma EnhancePromptCons(lex: Lexicon, t: Tagged, rest: seq<Tagged>)
    requires rest != []
    ensures EnhancePrompt(lex, [t] + rest) == EnhanceToken(lex, t) + " " + EnhancePrompt(lex, rest)
  {
    EnhancePromptAppend(lex, [t], rest);
  }

  /** The last three tokens of the example below. */
  lemma ExampleTail(lex: Lexicon)
    requires lex("cars", Noun) == [Sense("car.n.01", "auto"), Sense("car.n.02", "cart")]
    requires lex("world", Noun) == []
    ensures EnhancePrompt(lex, [("world", "NN"), ("where", "WRB"), ("cars", "NNS")])
         == "world"
          + " " + ("where"
          + " " + ("cars" + " (specifically: " + "car" + ", meaning: " + "auto" + ")"))
  {
    var t2, t3, t4 := ("world", "NN"), ("where", "WRB"), ("cars", "NNS");
    assert [t3] + [t4] == [t3, t4];
    assert [t2] + [t3, t4] == [t2, t3, t4];
    assert EnhancePrompt(lex, [t4]) == EnhanceToken(lex, t4);
    ExampleNoun(lex);
    ExamplePassThrough(lex);
    EnhancePromptCons(lex, t3, [t4]);
    EnhancePromptCons(lex, t2, [t3, t4]);
  }

  /** The first five tokens of the demo's sample prompt, "Imagine a world
      where cars ...", against a lexicon that knows one verb sense of
      "Imagine" and two noun senses of "cars", and gives "world" no noun
      sense: the verb and the first noun sense are annotated, the
      determiner, the wh-adverb and the noun without a sense pass through,
      and single spaces separate the results. */
  lemma ExamplePrompt(lex: Lexicon)
    requires lex("Imagine", Verb) == [Sense("imagine.v.01", "picture")]
    requires lex("cars", Noun) == [Sense("car.n.01", "auto"), Sense("car.n.02", "cart")]
    requires lex("world", Noun) == []
    ensures EnhancePrompt(lex, [("Imagine", "VB"), ("a", "DT"), ("world", "NN"), ("where", "WRB"), ("cars", "NNS")])
         == "Imagine" + " (specifically: " + "imagine" + ", meaning: " + "picture" + ")"
          + " " + ("a"
          + " " + ("world"
          + " " + ("where"
          + " " + ("cars" + " (specifically: " + "car" + ", meaning: " + "auto" + ")"))))
  {
    var t0, t1, t2, t3, t4 := ("Imagine", "VB"), ("a", "DT"), ("world", "NN"), ("where", "WRB"), ("cars", "NNS");
    assert [t1] + [t2, t3, t4] == [t1, t2, t3, t4];
    assert [t0] + [t1, t2, t3, t4] == [t0, t1, t2, t3, t4];
    ExampleVerb(lex);
    ExamplePassThrough(lex);
    ExampleTail(lex);
    EnhancePromptCons(lex, t1, [t2, t3, t4]);
    EnhancePromptCons(lex, t0, [t1, t2, t3, t4]);
  }
}

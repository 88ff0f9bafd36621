# Prompt Enhancer, modelled in Dafny

The Prompt Enhancer takes a natural-language prompt and annotates each of
its content words with a WordNet gloss. The prompt is tokenized and each
token gets a Penn Treebank part-of-speech tag. The tag is then reduced to
one of the four WordNet lexical categories (adjective, verb, noun,
adverb) or to none. A token with a category is looked up in WordNet. If
WordNet has a sense for it, the token becomes
`word (specifically: <short name>, meaning: <definition>)`, built from the
first sense returned. The results are joined with single spaces.

This project models that pipeline over its two external collaborators:

- the tokenizer and tagger are represented by their combined output, a
  sequence of `(word, tag)` pairs (`Enhancer.Tagged`);
- WordNet is represented by a `Lexicon`, any total function from a word
  and a category to the ordered list of senses it returns. A `Sense`
  holds the synset's canonical name (such as `car.n.01`) and its
  definition.

Modules:

- `Options` (`options.dfy`): the `Option` datatype, standing for a value
  or Python's `None`.
- `Text` (`text.dfy`): Python's `str.startswith`, `str.split` with a
  one-character separator, and `sep.join`. It proves that splitting and
  joining are inverse to each other and that joining a concatenation
  puts one separator at the seam.
- `PosTags` (`pos_tags.dfy`): the tag-to-category mapper `WordnetPos`.
  Its result is `Option<Cat>`, and `None` stands for Python's `None`.
- `Enhancer` (`enhancer.dfy`): the short name of a synset, the annotation
  of one word, the per-token step, and the whole prompt.

The Python test `if wordnet_pos:` is modelled as `Some?`. WordNet's
category constants are the non-empty strings `'a'`, `'v'`, `'n'` and
`'r'`, so every category is truthy.

## Model

| member | source | states |
|---|---|---|
| `PosTags.WordnetPos` | main.py:12-30 | The result is `Some(c)` exactly when the tag is non-empty and starts with `c`'s Treebank initial (J, V, N, R). It is `None` exactly when the tag is empty or starts with any other character. The mapping is total. |
| `PosTags.FirstCharDetermines` | main.py:21-30 | Two tags with the same first character, or two empty tags, map to the same result. |
| `PosTags.InitialSelects` | main.py:21-28 | A category's initial followed by any characters maps to that category. |
| `PosTags.InitialInjective` | main.py:21-28 | No two categories share an initial, so the order of the prefix tests cannot change the result. |
| `PosTags.ContentTagFamilies` | main.py:21-28 | JJ/JJR/JJS map to adjective, VB/VBD/VBG/VBN/VBP/VBZ to verb, NN/NNS/NNP to noun, and RB/RBR/RBS to adverb. |
| `PosTags.OtherTagFamilies` | main.py:21-30 | DT, IN, CC, PRP, WRB, "." and the empty tag map to none. RP maps to adverb because only the initial is inspected. |
| `Text.StartsWith` | main.py:21-27 | `startswith` is Dafny's prefix relation. For a one-character prefix it holds exactly when the string is non-empty and its first character is that character, so the empty tag starts with nothing. |
| `Text.JoinShape` | main.py:80 | `Text.Join` is `' '.join`: no parts give `""`. Otherwise the result starts with the first part and ends with the last, and its length is the parts' total length plus one separator per pair of neighbours. |
| `Text.Split` | main.py:50 | Python `split` with an explicit separator returns at least one part. No part contains the separator, and joining the parts with the separator gives back the input. |
| `Text.SplitJoin` | main.py:50 | Splitting a join of one or more separator-free parts returns exactly those parts. |
| `Text.JoinAppend` | main.py:80 | Joining `a + b`, both non-empty, is joining `a`, then the separator once, then joining `b`. |
| `Enhancer.ShortName` | main.py:50 | `name.split('.')[0]` is a prefix of the name that contains no dot and ends either at the end of the name or just before its first dot. |
| `Enhancer.ShortNameUnique` | main.py:50 | Any prefix with those three properties equals the short name, so they define it completely. |
| `Enhancer.AnnotationFields` | main.py:50 | `Enhancer.Annotation` is the f-string tail after the word: " (specifically: ", the dot-free short name, ", meaning: ", the definition, then ")". Its length is 28 plus the two fields, and each field can be read back from its position. |
| `Enhancer.EnhancedWord` | main.py:32-51 | The result equals the word exactly when the lexicon returns no sense. The result always starts with the word. With at least one sense, the text after the word is the annotation of the first sense. |
| `Enhancer.FirstSenseWins` | main.py:46-50 | Two lexicons whose sense lists for (word, category) are non-empty and share the first sense annotate the word identically, whatever the later senses are. |
| `Enhancer.AnnotatedToken` | main.py:50 | An annotated token is exactly `word + " (specifically: " + short + ", meaning: " + definition + ")"`, where `short` and `definition` come from the first sense under the tag's category. |
| `Enhancer.EnhanceToken` | main.py:68-77 | The result starts with the token's word. It equals the word exactly when the tag has no category or the lexicon has no sense. Otherwise the text after the word is the annotation of the first sense. |
| `Enhancer.EnhancedWords` | main.py:66-77 | There is one output element per tagged token, in token order, and element `i` is the enhancement of token `i` alone. |
| `Enhancer.EnhancePrompt` | main.py:53-81 | No tokens give `""`. One token gives its enhancement with no added space. Otherwise the result starts with the first token's word. |
| `Enhancer.EnhancedWordsAppend` | main.py:67-77 | Enhancing a concatenation of token runs is concatenating their enhancements, so no token's result depends on its neighbours. |
| `Enhancer.EnhancePromptAppend` | main.py:67-80 | The enhanced prompt of `a + b`, both non-empty, is the enhanced prompt of `a`, one space, then the enhanced prompt of `b`. |
| `Enhancer.EnhancePromptAt` | main.py:67-80 | The enhancement of token `i` sits in the output between the enhanced prefix and the enhanced suffix. Exactly one space separates it from each side that exists. |
| `Enhancer.EnhancePromptCons` | main.py:67-80 | A token followed by at least one more gives that token's enhancement, one space, then the enhanced prompt of the rest. |
| `Enhancer.EnhancePromptFrom` | main.py:67-80 | The enhanced suffix from token `i` is token `i`'s enhancement, followed by one space and the enhanced rest when more tokens follow. |
| `Enhancer.FunctionWordsPassThrough` | main.py:72-80 | If no tag maps to a category, the output is the words joined with single spaces, whatever the lexicon holds. |
| `Enhancer.EmptyLexiconPassThrough` | main.py:42-44 | A lexicon with no senses for any word leaves the prompt as its words joined with single spaces. |
| `Enhancer.PassThroughSplits` | main.py:76-80 | For one or more tokens, if every token comes back as its word (no category or no sense) and no word contains a space, splitting the output at spaces gives back exactly the words. |
| `Enhancer.ExampleVerb` | main.py:74 | The verb "Imagine" tagged VB, with one sense `imagine.v.01`, becomes `Imagine (specifically: imagine, meaning: picture)`. |
| `Enhancer.ExampleNoun` | main.py:47-50 | The noun "cars" tagged NNS, with senses `car.n.01` and `car.n.02`, is annotated from `car.n.01` only. |
| `Enhancer.ExamplePassThrough` | main.py:70-77 | In the example, "a" (DT) and "where" (WRB) have no category and pass through. "world" (NN) passes through because this lexicon gives it no noun sense. |
| `Enhancer.ExampleTail` | main.py:67-80 | The example's last three tokens, "world where cars", give `world where cars (specifically: car, meaning: auto)`. |
| `Enhancer.ExamplePrompt` | main.py:85-86 | The first five tokens of the sample prompt, "Imagine a world where cars", come out with the verb and the noun annotated, all separated by single spaces. "a", "where" and "world" pass through; "world" does so because this lexicon gives it no noun sense. |

## Left out

- The `nltk.download` calls (main.py:7-10) are one-time network and file setup and are not modelled.
- `word_tokenize` and `pos_tag` (main.py:63-64) are an external tokenizer and a statistical tagger. Their combined output is the model's input, so `EnhancePrompt` takes tagged tokens, not raw text. Scenarios that depend on the tokenizer are not stated, such as "the empty prompt gives an empty token sequence".
- Non-idempotence of the enhancer (enhancing an enhanced prompt annotates the inserted glosses again) is not stated. It needs the tokenizer and tagger, which are outside the model.
- `wordnet.synsets` (main.py:42) and its sense ranking are an external database. The model takes the lexicon as a parameter. "First sense wins" is stated relative to whatever order that lexicon returns.
- The concrete values of `wordnet.ADJ`, `VERB`, `NOUN` and `ADV` are replaced by the enumeration `PosTags.Cat`.
- Failures of the tokenizer, tagger or database propagate as Python exceptions. They are not modelled because every modelled operation is total.
- The `__main__` demo and its console output (main.py:84-88) are left out. Only the first five tokens of its sample prompt are used, in `ExamplePrompt`, with a lexicon stipulated by that lemma rather than real WordNet senses.

/** `get_tokens` and the token-length guard of `get_embedding`, which the
    loaders share. The tokenizer (`encode`) and the embeddings API (`embed`)
    are parameters: they are library and network calls. */
module Tokens {
  import opened Json
  import opened Strings

  /** The embeddings API accepts at most this many tokens per input. */
  const MaxTokens: nat := 8191

  /** The text the tokenizer receives: every newline turned into a space. */
  function TokenizerInput(text: string): (t: string)
    ensures |t| == |text|
    ensures forall i :: 0 <= i < |text| ==> t[i] == (if text[i] == '\n' then ' ' else text[i])
    ensures '\n' !in t
  {
    ReplaceCharPointwise(text, '\n', ' ');
    ReplaceAll(text, "\n", " ")
  }

  /** `get_tokens(text)`: `encoding.encode(text.replace('\n', ' '))`. */
  function GetTokens(text: string, encode: string -> seq<int>): seq<int> {
    encode(TokenizerInput(text))
  }

  /** Two texts that differ only in newlines versus spaces get the same tokens. */
  lemma {:induction false} NewlinesCountAsSpaces(a: string, b: string, encode: string -> seq<int>)
    requires |a| == |b|
    requires forall i :: 0 <= i < |a| ==> a[i] == b[i] || (a[i] in "\n " && b[i] in "\n ")
    ensures GetTokens(a, encode) == GetTokens(b, encode)
  {
    var ta, tb := TokenizerInput(a), TokenizerInput(b);
    forall i | 0 <= i < |a| ensures ta[i] == tb[i] {
      if a[i] != b[i] {
        assert a[i] in "\n " && b[i] in "\n ";
      }
    }
    assert ta == tb;
  }

  /** The tokens `get_embedding` passes on: the first `MaxTokens` of them. */
  function EmbeddingInput(tokens: seq<int>): (input: seq<int>)
    ensures |input| == if |tokens| > MaxTokens then MaxTokens else |tokens|
    ensures input == tokens[..|input|]
  {
    if |tokens| > MaxTokens then tokens[..MaxTokens] else tokens
  }

  /** A list within the limit is passed on unchanged, and truncating twice is
      truncating once. */
  lemma EmbeddingInputStable(tokens: seq<int>)
    ensures |tokens| <= MaxTokens ==> EmbeddingInput(tokens) == tokens
    ensures EmbeddingInput(EmbeddingInput(tokens)) == EmbeddingInput(tokens)
  {
  }

  /** `get_embedding(tokens)` in the loaders that truncate: an over-long list is
      cut to its first `MaxTokens` tokens before the embeddings API sees it. */
  method GetEmbedding(tokens: seq<int>, embed: seq<int> -> Value) returns (embedding: Value)
    ensures embedding == embed(EmbeddingInput(tokens))
  {
    var input := tokens;
    if |input| > MaxTokens {
      input := input[..MaxTokens];
    }
    embedding := embed(input);
  }
}

/** The input preparation of BertEmbeddings.cs: the tokenizer, the vocabulary
    loaded from the vocab text, the 256 input ids of a text, the attention
    mask and the token-type ids handed to the model. */
module Bert {
  import opened Wrappers
  import opened QuerySyntax

  /** `maxSequenceLength` of PreProcessText. */
  const MaxSequenceLength: nat := 256

  // ---------------------------------------------------------------------------
  // Tokenizing: ToLower, Trim, Split(' ')

  /** `char.ToLower`, restricted to ASCII letters. */
  function LowerChar(c: char): (l: char)
    ensures !('A' <= l <= 'Z')
    ensures 'A' <= c <= 'Z' ==> l as int == c as int + 32
    ensures !('A' <= c <= 'Z') ==> l == c
  {
    if 'A' <= c <= 'Z' then (c as int + 32) as char else c
  }

  /** `string.ToLower()`, character by character. */
  function ToLower(s: string): (r: string)
    ensures |r| == |s|
    ensures forall i :: 0 <= i < |s| ==> r[i] == LowerChar(s[i])
  {
    if s == [] then [] else [LowerChar(s[0])] + ToLower(s[1..])
  }

  /** Lowering twice is lowering once, and lowering leaves white space where it was. */
  lemma ToLowerIdempotent(s: string)
    ensures ToLower(ToLower(s)) == ToLower(s)
    ensures forall i :: 0 <= i < |s| ==> (IsWhiteSpace(ToLower(s)[i]) <==> IsWhiteSpace(s[i]))
  {
    var once := ToLower(s);
    assert forall i :: 0 <= i < |s| ==> ToLower(once)[i] == once[i];
  }

  /** The start of the trailing white space of `s[..e]`. */
  function TrailingStart(s: string, e: nat): (k: nat)
    requires e <= |s|
    ensures k <= e
    ensures forall i :: k <= i < e ==> IsWhiteSpace(s[i])
    ensures k == 0 || !IsWhiteSpace(s[k - 1])
    decreases e
  {
    if e > 0 && IsWhiteSpace(s[e - 1]) then TrailingStart(s, e - 1) else e
  }

  /** `string.Trim()`: the text without its leading and trailing white space. */
  function Trim(s: string): (r: string)
    ensures r == [] || (!IsWhiteSpace(r[0]) && !IsWhiteSpace(r[|r| - 1]))
    ensures r == [] <==> forall i :: 0 <= i < |s| ==> IsWhiteSpace(s[i])
  {
    var a := SkipWs(s, 0);
    var b := TrailingStart(s, |s|);
    if a < b then s[a..b] else []
  }

  /** Trim removes only white space, from the two ends. */
  lemma TrimDropsOnlyWhiteSpace(s: string)
    ensures var a := SkipWs(s, 0);
            a + |Trim(s)| <= |s| && s[a..a + |Trim(s)|] == Trim(s) &&
            forall i :: 0 <= i < |s| && (i < a || a + |Trim(s)| <= i) ==> IsWhiteSpace(s[i])
  {
    var a := SkipWs(s, 0);
    var b := TrailingStart(s, |s|);
    if a < |s| {
      assert !IsWhiteSpace(s[a]);
      assert a < b;
    }
  }

  /** A text that neither starts nor ends with white space is left as it is,
      so trimming twice is trimming once. */
  lemma TrimTrimmed(s: string)
    requires s == [] || (!IsWhiteSpace(s[0]) && !IsWhiteSpace(s[|s| - 1]))
    ensures Trim(s) == s
    ensures Trim(Trim(s)) == Trim(s)
  {
    if s != [] {
      assert SkipWs(s, 0) == 0;
      assert TrailingStart(s, |s|) == |s|;
      assert s[0..|s|] == s;
    }
  }

  /** The position of the first `sep` in `s`, or |s| when there is none. */
  function IndexOf(s: string, sep: char): (k: nat)
    ensures k <= |s| && (k < |s| ==> s[k] == sep)
    ensures forall i :: 0 <= i < k ==> s[i] != sep
  {
    if s == [] then 0
    else if s[0] == sep then 0
    else 1 + IndexOf(s[1..], sep)
  }

  /** `string.Split(sep)`: the pieces between the separators, empty pieces
      included, so there is always one piece more than there are separators. */
  function Split(s: string, sep: char): (parts: seq<string>)
    ensures |parts| > 0
    ensures forall k :: 0 <= k < |parts| ==> sep !in parts[k]
    decreases |s|
  {
    var i := IndexOf(s, sep);
    if i == |s| then [s] else [s[..i]] + Split(s[i + 1..], sep)
  }

  /** `string.Join(sep, parts)`. */
  function Join(parts: seq<string>, sep: char): string
  {
    if parts == [] then ""
    else if |parts| == 1 then parts[0]
    else parts[0] + [sep] + Join(parts[1..], sep)
  }

  /** Splitting loses nothing: joining the pieces gives the text back. */
  lemma {:induction false} JoinSplit(s: string, sep: char)
    ensures Join(Split(s, sep), sep) == s
    decreases |s|
  {
    var i := IndexOf(s, sep);
    if i < |s| {
      var rest := Split(s[i + 1..], sep);
      JoinSplit(s[i + 1..], sep);
      assert Split(s, sep) == [s[..i]] + rest;
      assert ([s[..i]] + rest)[1..] == rest;
      assert s == s[..i] + [sep] + s[i + 1..];
    }
  }

  /** Pieces without the separator come back from Split of their Join. */
  lemma {:induction false} SplitJoin(parts: seq<string>, sep: char)
    requires |parts| > 0 && forall k :: 0 <= k < |parts| ==> sep !in parts[k]
    ensures Split(Join(parts, sep), sep) == parts
    decreases |parts|
  {
    if |parts| == 1 {
      assert IndexOf(parts[0], sep) == |parts[0]|;
    } else {
      var first := parts[0];
      var rest := Join(parts[1..], sep);
      var s := first + [sep] + rest;
      SplitJoin(parts[1..], sep);
      assert s[|first|] == sep;
      assert forall i :: 0 <= i < |first| ==> s[i] == first[i];
      assert IndexOf(s, sep) == |first|;
      assert s[..|first|] == first;
      assert s[|first| + 1..] == rest;
      assert [first] + parts[1..] == parts;
    }
  }

  /** Tokenizing: lower-case, trim, split on the single character ' '. */
  function Tokenizing(text: string): (tokens: seq<string>)
    ensures |tokens| > 0
    ensures forall k :: 0 <= k < |tokens| ==> ' ' !in tokens[k]
  {
    Split(Trim(ToLower(text)), ' ')
  }

  /** The tokens are the pieces of the lowered, trimmed text: joined with
      single spaces they give it back. */
  lemma TokenizingJoin(text: string)
    ensures Join(Tokenizing(text), ' ') == Trim(ToLower(text))
  {
    JoinSplit(Trim(ToLower(text)), ' ');
  }

  /** Empty text is one empty token. */
  lemma TokenizingEmpty(empty: string)
    requires empty == ""
    ensures Tokenizing(empty) == [""]
  {
    assert Trim(ToLower(empty)) == "";
  }

  /** Two spaces in a row give an empty token between them. */
  lemma TokenizingTwoSpaces(text: string)
    requires text == " A  b "
    ensures Tokenizing(text) == ["a", "", "b"]
  {
    var lowered := ToLower(text);
    assert lowered == " a  b ";
    TrimmedExample(lowered);
    SplitJoin(["a", "", "b"], ' ');
  }

  lemma TrimmedExample(lowered: string)
    requires lowered == " a  b "
    ensures Trim(lowered) == Join(["a", "", "b"], ' ')
  {
    assert SkipWs(lowered, 1) == 1;
    assert TrailingStart(lowered, 5) == 5;
    assert Join(["b"], ' ') == "b";
    assert Join(["", "b"], ' ') == " b";
  }

  // ---------------------------------------------------------------------------
  // The vocabulary and the input ids

  /** `Dictionary.TryAdd`: the entry is added only when the key is new. */
  function TryAdd(m: map<string, int>, key: string, value: int): (r: map<string, int>)
    ensures key in m ==> r == m
    ensures key !in m ==> r == m[key := value]
  {
    if key in m then m else m[key := value]
  }

  /** The loop of LoadVocab: `TryAdd(lines[i], i)` for every line in order,
      so an existing key is never overwritten. */
  function AddLines(vocab: map<string, int>, lines: seq<string>): (r: map<string, int>)
    ensures forall w :: w in r <==> w in vocab || w in lines
    ensures forall w :: w in vocab ==> r[w] == vocab[w]
  {
    if lines == [] then vocab
    else
      var init := lines[..|lines| - 1];
      assert forall v :: v in lines <==> v in init || v == lines[|lines| - 1];
      TryAdd(AddLines(vocab, init), lines[|lines| - 1], |lines| - 1)
  }

  /** The index of the first line equal to `w`. */
  function FirstIndex(lines: seq<string>, w: string): (k: nat)
    requires w in lines
    ensures k < |lines| && lines[k] == w
    ensures forall i :: 0 <= i < k ==> lines[i] != w
  {
    if lines[0] == w then 0 else 1 + FirstIndex(lines[1..], w)
  }

  /** A word that was not in the vocabulary gets the index of its FIRST line;
      later duplicates do not move it. */
  lemma {:induction false} AddLinesFirst(vocab: map<string, int>, lines: seq<string>, w: string)
    requires w !in vocab && w in lines
    ensures AddLines(vocab, lines)[w] == FirstIndex(lines, w)
    decreases |lines|
  {
    var n := |lines|;
    var init := lines[..n - 1];
    var prev := AddLines(vocab, init);
    assert AddLines(vocab, lines) == TryAdd(prev, lines[n - 1], n - 1);
    if w in init {
      AddLinesFirst(vocab, init, w);
      FirstIndexPrefix(lines, w);
    } else {
      assert forall v :: v in lines <==> v in init || v == lines[n - 1];
      assert lines[n - 1] == w && w !in prev;
    }
  }

  lemma FirstIndexPrefix(lines: seq<string>, w: string)
    requires |lines| > 0 && w in lines[..|lines| - 1]
    ensures FirstIndex(lines[..|lines| - 1], w) == FirstIndex(lines, w)
  {
    var init := lines[..|lines| - 1];
    var k := FirstIndex(init, w);
    assert forall i :: 0 <= i < |init| ==> init[i] == lines[i];
    assert lines[k] == w;
  }

  /** The id of one token: its own id, else the id of "UNK"; None where
      `vocab["UNK"]` would throw. */
  function TokenId(vocab: map<string, int>, token: string): (r: Option<int>)
    ensures r.None? <==> token !in vocab && "UNK" !in vocab
    ensures token in vocab ==> r == Some(vocab[token])
    ensures token !in vocab && "UNK" in vocab ==> r == Some(vocab["UNK"])
  {
    if token in vocab then Some(vocab[token])
    else if "UNK" in vocab then Some(vocab["UNK"])
    else Option.None
  }

  /** The ids of a token list, None as soon as one token has no id. */
  function MapTokens(vocab: map<string, int>, tokens: seq<string>): (r: Option<seq<int>>)
    ensures r.Some? ==> |r.value| == |tokens|
    ensures "UNK" in vocab ==> r.Some?
  {
    if tokens == [] then Some([])
    else
      match MapTokens(vocab, tokens[..|tokens| - 1])
      case None => Option.None
      case Some(ids) =>
        match TokenId(vocab, tokens[|tokens| - 1])
        case None => Option.None
        case Some(id) => Some(ids + [id])
  }

  /** The mapping fails exactly when some token has no id, and otherwise
      gives one id per token, in order. */
  lemma {:induction false} MapTokensMeaning(vocab: map<string, int>, tokens: seq<string>)
    ensures MapTokens(vocab, tokens).None? <==> exists k :: 0 <= k < |tokens| && TokenId(vocab, tokens[k]).None?
    ensures MapTokens(vocab, tokens).Some? ==>
              |MapTokens(vocab, tokens).value| == |tokens| &&
              forall k :: 0 <= k < |tokens| ==> MapTokens(vocab, tokens).value[k] == TokenId(vocab, tokens[k]).value
    decreases |tokens|
  {
    if tokens != [] {
      var n := |tokens|;
      var init := tokens[..n - 1];
      MapTokensMeaning(vocab, init);
      assert forall k :: 0 <= k < n - 1 ==> init[k] == tokens[k];
      if MapTokens(vocab, init).None? {
        var k :| 0 <= k < n - 1 && TokenId(vocab, init[k]).None?;
        assert TokenId(vocab, tokens[k]).None?;
      }
    }
  }

  /** One more token of the mapping loop of PreProcessText. */
  lemma MapTokensExtend(vocab: map<string, int>, tokens: seq<string>, k: nat, ids: seq<int>, id: int)
    requires k < |tokens| && MapTokens(vocab, tokens[..k]) == Some(ids)
    requires TokenId(vocab, tokens[k]) == Some(id)
    ensures MapTokens(vocab, tokens[..k + 1]) == Some(ids + [id])
  {
    assert tokens[..k + 1][..k] == tokens[..k];
  }

  /** A token without an id fails the whole mapping. */
  lemma MapTokensStuck(vocab: map<string, int>, tokens: seq<string>, k: nat)
    requires k < |tokens| && TokenId(vocab, tokens[k]).None?
    ensures MapTokens(vocab, tokens) == Option.None
  {
    MapTokensMeaning(vocab, tokens);
  }

  /** Zeros appended to reach `n` ids, or the first `n` ids. */
  function Fit(ids: seq<int>, n: nat): (r: seq<int>)
    ensures |r| == n
    ensures forall i :: 0 <= i < n && i < |ids| ==> r[i] == ids[i]
    ensures forall i :: |ids| <= i < n ==> r[i] == 0
  {
    if |ids| > n then ids[..n] else ids + seq(n - |ids|, _ => 0)
  }

  /** One more padding zero. */
  lemma FitStep(ids: seq<int>, n: nat)
    requires |ids| <= n
    ensures Fit(ids, n) + [0] == Fit(ids, n + 1)
  {
    assert Fit(ids, n) + [0] == ids + (seq(n - |ids|, _ => 0) + [0]);
  }

  /** The token list of PreProcessText: "[CLS]", the tokens, "[SEP]". */
  function Framed(text: string): seq<string>
  {
    ["[CLS]"] + Tokenizing(text) + ["[SEP]"]
  }

  /** The ids PreProcessText puts in its tensor, None where it throws. */
  function InputIds(vocab: map<string, int>, text: string): (r: Option<seq<int>>)
    ensures r.Some? ==> |r.value| == MaxSequenceLength
    ensures "UNK" in vocab ==> r.Some?
  {
    match MapTokens(vocab, Framed(text))
    case None => Option.None
    case Some(ids) => Some(Fit(ids, MaxSequenceLength))
  }

  /** Exactly 256 ids: the ids of "[CLS]", the tokens and "[SEP]", then zeros;
      past 256 the tail, "[SEP]" included, is cut off. */
  lemma InputIdsShape(vocab: map<string, int>, text: string)
    ensures InputIds(vocab, text).None? <==> "UNK" !in vocab && exists k :: 0 <= k < |Framed(text)| && Framed(text)[k] !in vocab
    ensures InputIds(vocab, text).Some? ==>
              var ids := InputIds(vocab, text).value;
              var framed := Framed(text);
              |ids| == MaxSequenceLength &&
              (forall i :: 0 <= i < MaxSequenceLength && i < |framed| ==> ids[i] == TokenId(vocab, framed[i]).value) &&
              (forall i :: |framed| <= i < MaxSequenceLength ==> ids[i] == 0)
  {
    var framed := Framed(text);
    MapTokensMeaning(vocab, framed);
    if InputIds(vocab, text).None? {
      var k :| 0 <= k < |framed| && TokenId(vocab, framed[k]).None?;
      assert framed[k] !in vocab;
    } else if "UNK" !in vocab {
      forall k | 0 <= k < |framed| ensures framed[k] in vocab {
        assert TokenId(vocab, framed[k]).Some?;
      }
    }
  }

  /** The mask of a list of ids: 1 where the id is positive, 0 elsewhere. */
  function AttentionMask(ids: seq<int>): (mask: seq<int>)
    ensures |mask| == |ids|
    ensures forall i :: 0 <= i < |ids| ==> (mask[i] == 1 <==> ids[i] > 0) && (mask[i] == 0 <==> ids[i] <= 0)
  {
    seq(|ids|, i requires 0 <= i < |ids| => if ids[i] > 0 then 1 else 0)
  }

  /** The mask of the input ids follows the ids of the framed tokens: a
      token position is marked exactly when its id is positive, and every
      padding position is unmarked.  Since LoadVocab gives the first line of
      the vocabulary file id 0 (LoadedFirstLineIsZero), a token with that id
      is left unmarked like padding. */
  lemma MaskMarksTokens(vocab: map<string, int>, text: string)
    requires InputIds(vocab, text).Some?
    ensures var mask := AttentionMask(InputIds(vocab, text).value);
            |mask| == MaxSequenceLength &&
            (forall i :: 0 <= i < MaxSequenceLength && i < |Framed(text)| ==>
               TokenId(vocab, Framed(text)[i]).Some? &&
               (mask[i] == 1 <==> TokenId(vocab, Framed(text)[i]).value > 0)) &&
            (forall i :: |Framed(text)| <= i < MaxSequenceLength ==> mask[i] == 0)
  {
    InputIdsShape(vocab, text);
  }

  /** The first line of a vocabulary file loaded into an empty vocabulary
      gets id 0. */
  lemma LoadedFirstLineIsZero(text: string)
    ensures var lines := Split(text, '\n');
            lines[0] in AddLines(map[], lines) && AddLines(map[], lines)[lines[0]] == 0
  {
    var lines := Split(text, '\n');
    AddLinesFirst(map[], lines, lines[0]);
  }

  // ---------------------------------------------------------------------------
  // The class

  class BertEmbeddings {
    var vocab: map<string, int>

    constructor ()
      ensures vocab == map[]
    {
      vocab := map[];
    }

    /** LoadVocab, given the text of the vocab file: split on '\n' only, then
        TryAdd line i under index i. */
    method LoadVocab(allResultText: string)
      modifies this`vocab
      ensures vocab == AddLines(old(vocab), Split(allResultText, '\n'))
    {
      var allResult := Split(allResultText, '\n');
      for i := 0 to |allResult|
        invariant vocab == AddLines(old(vocab), allResult[..i])
      {
        assert allResult[..i + 1][..i] == allResult[..i];
        vocab := TryAdd(vocab, allResult[i], i);
      }
      assert allResult[..|allResult|] == allResult;
    }

    /** PreProcessText: the ids of "[CLS]", the tokens and "[SEP]", cut or
        zero-padded to 256 and copied into a fresh tensor. None where a token
        is unknown and "UNK" is missing too. */
    method PreProcessText(text: string) returns (inputTensor: Option<array<int>>)
      ensures InputIds(vocab, text).None? ==> inputTensor.None?
      ensures InputIds(vocab, text).Some? ==>
                inputTensor.Some? && fresh(inputTensor.value) && inputTensor.value[..] == InputIds(vocab, text).value
    {
      var tokens := Tokenizing(text);
      var inputIds: seq<int> := [];
      tokens := ["[CLS]"] + tokens;
      tokens := tokens + ["[SEP]"];
      assert tokens == Framed(text);
      for k := 0 to |tokens|
        invariant MapTokens(vocab, tokens[..k]) == Some(inputIds)
      {
        var token := tokens[k];
        if token in vocab {
          MapTokensExtend(vocab, tokens, k, inputIds, vocab[token]);
          inputIds := inputIds + [vocab[token]];
        } else if "UNK" in vocab {
          MapTokensExtend(vocab, tokens, k, inputIds, vocab["UNK"]);
          inputIds := inputIds + [vocab["UNK"]];
        } else {
          MapTokensStuck(vocab, tokens, k);
          return Option.None;
        }
      }
      assert tokens[..|tokens|] == tokens;
      ghost var mapped := inputIds;
      assert InputIds(vocab, text) == Some(Fit(mapped, MaxSequenceLength));
      var maxSequenceLength := MaxSequenceLength;
      if |inputIds| > maxSequenceLength {
        inputIds := inputIds[..maxSequenceLength];
      } else {
        while |inputIds| < maxSequenceLength
          invariant |mapped| <= |inputIds| <= maxSequenceLength
          invariant inputIds == Fit(mapped, |inputIds|)
          decreases maxSequenceLength - |inputIds|
        {
          FitStep(mapped, |inputIds|);
          inputIds := inputIds + [0];
        }
      }
      assert inputIds == Fit(mapped, MaxSequenceLength);
      var tensor := ToTensor(inputIds);
      return Some(tensor);
    }

    /** The tensor built from an id list: a fresh array holding the ids. */
    static method ToTensor(ids: seq<int>) returns (tensor: array<int>)
      ensures fresh(tensor) && tensor[..] == ids
    {
      tensor := new int[|ids|];
      for i := 0 to |ids|
        invariant forall j :: 0 <= j < i ==> tensor[j] == ids[j]
      {
        tensor[i] := ids[i];
      }
    }

    /** GenerateAttentionMask: a fresh tensor of the same length holding the
        mask of the ids. */
    static method GenerateAttentionMask(inputIds: array<int>) returns (tensor: array<int>)
      ensures fresh(tensor) && tensor[..] == AttentionMask(inputIds[..])
    {
      tensor := ToTensor(AttentionMask(inputIds[..]));
    }

    /** GenerateTokenTypeIds: a fresh all-zero tensor of the given length. */
    static method GenerateTokenTypeIds(inputIdsLength: nat) returns (tokenTypeIds: array<int>)
      ensures fresh(tokenTypeIds) && tokenTypeIds.Length == inputIdsLength
      ensures forall i :: 0 <= i < inputIdsLength ==> tokenTypeIds[i] == 0
    {
      tokenTypeIds := new int[inputIdsLength](_ => 0);
    }
  }
}

/**
 * The knowledge base and query path of `GptServiceImpl`: ingestion fills the vector store with
 * the embedded chunks of the parsed document and raises the readiness flag; a query embeds the
 * question, retrieves the best-scoring chunks, builds the prompt and asks the completion service.
 *
 * The embedding service, the similarity score and the completion service are parameters; the
 * iteration order of the hash maps is given as a sequence of the store's keys.
 */
module RagService {
  import opened Wrappers
  import opened JavaText
  import opened Sorting
  import LayoutParser
  import Chunker

  type Vector = seq<real>

  const TopKChunks: nat := 3
  const ContextSeparator: string := "\n\n"
  const NotReadyAnswer: string := "시스템이 아직 준비 중입니다. 잠시 후 다시 시도해주세요."
  const ErrorAnswerPrefix: string := "죄송합니다. 답변을 생성하는 중 오류가 발생했습니다: "
  /** A failure inside a pipeline stage reaches `exceptionally` wrapped, so its message is the cause's `toString()`. */
  const WrappedCausePrefix: string := "java.lang.RuntimeException: "
  const EmbeddingFailure: string := "질문 임베딩 실패"
  const NoChoiceFailure: string := "GPT 응답 없음"
  const PromptHeader: string := "아래 [참고 자료]를 바탕으로 사용자의 [질문]에 대해 답변해주세요.\n\n[참고 자료]\n"
  const QuestionHeader: string := "\n\n[질문]\n"

  /** The stored value of every chunk whose embedding succeeded, chunk by chunk (later puts overwrite). */
  function StoreAll(store: map<string, Vector>, chunks: seq<string>, embed: string -> Option<Vector>): map<string, Vector>
    decreases |chunks|
  {
    if chunks == [] then store
    else
      var before := StoreAll(store, chunks[..|chunks| - 1], embed);
      var last := chunks[|chunks| - 1];
      if embed(last).Some? then before[last := embed(last).value] else before
  }

  /**
   * Ingestion adds exactly the chunks that were embedded, each under its own embedding, and
   * leaves every other entry as it was.
   */
  lemma {:induction false} StoreAllContents(store: map<string, Vector>, chunks: seq<string>, embed: string -> Option<Vector>)
    ensures StoreAll(store, chunks, embed).Keys == store.Keys + set c | c in chunks && embed(c).Some?
    ensures forall c | c in chunks && embed(c).Some? :: StoreAll(store, chunks, embed)[c] == embed(c).value
    ensures forall k | k in store && !(k in chunks && embed(k).Some?) :: StoreAll(store, chunks, embed)[k] == store[k]
    decreases |chunks|
  {
    if chunks != [] {
      var init := chunks[..|chunks| - 1];
      StoreAllContents(store, init, embed);
      assert chunks == init + [chunks[|chunks| - 1]];
    }
  }

  /** The similarity of each stored chunk to the question, as the scoring loop fills its map. */
  function Scores(store: map<string, Vector>, keys: seq<string>, question: Vector, similarity: (Vector, Vector) -> real): (r: map<string, real>)
    requires forall k | k in keys :: k in store
    ensures r.Keys == set k | k in keys
    ensures forall k | k in keys :: r[k] == similarity(question, store[k])
    decreases |keys|
  {
    if keys == [] then map[]
    else
      var last := keys[|keys| - 1];
      Scores(store, keys[..|keys| - 1], question, similarity)[last := similarity(question, store[last])]
  }

  /** Scoring one more key adds that key's similarity to the scores so far. */
  lemma ScoresSnoc(store: map<string, Vector>, keys: seq<string>, i: nat, question: Vector,
                   similarity: (Vector, Vector) -> real)
    requires forall k | k in keys :: k in store
    requires i < |keys|
    ensures keys[i] in store
    ensures Scores(store, keys[..i + 1], question, similarity)
         == Scores(store, keys[..i], question, similarity)[keys[i] := similarity(question, store[keys[i]])]
  {
    assert keys[i] in keys;
    assert keys[..i + 1][..i] == keys[..i];
  }

  function ScoreOf(scores: map<string, real>, chunk: string): real {
    if chunk in scores then scores[chunk] else 0.0
  }

  /** Highest score first: the order of `comparingByValue().reversed()`. */
  function ByScoreDescending(scores: map<string, real>): string -> Rank {
    chunk => Rank(0, -ScoreOf(scores, chunk))
  }

  /** `sorted(...).limit(topK).map(getKey)`: the `topK` best-scoring chunks, best first. */
  function TopChunks(scores: map<string, real>, keys: seq<string>, topK: nat): seq<string> {
    TakeFirst(SortBy(keys, ByScoreDescending(scores)), topK)
  }

  /**
   * The retrieved chunks number `min(topK, stored)`, are stored chunks, come best first, and
   * none left out scores higher than one retrieved.
   */
  lemma TopChunksAreBest(scores: map<string, real>, keys: seq<string>, topK: nat)
    ensures |TopChunks(scores, keys, topK)| == if topK <= |keys| then topK else |keys|
    ensures forall c | c in TopChunks(scores, keys, topK) :: c in keys
    ensures forall i, j | 0 <= i < j < |TopChunks(scores, keys, topK)|
      :: ScoreOf(scores, TopChunks(scores, keys, topK)[i]) >= ScoreOf(scores, TopChunks(scores, keys, topK)[j])
    ensures forall c, d | c in TopChunks(scores, keys, topK) && d in keys && d !in TopChunks(scores, keys, topK)
      :: ScoreOf(scores, c) >= ScoreOf(scores, d)
  {
    var rank := ByScoreDescending(scores);
    var sorted := SortBy(keys, rank);
    var top := TopChunks(scores, keys, topK);
    SortBySorted(keys, rank);
    assert top == sorted[..|top|];
    forall c | c in top ensures c in keys {
      assert c in multiset(sorted);
    }
    forall i, j | 0 <= i < j < |top| ensures ScoreOf(scores, top[i]) >= ScoreOf(scores, top[j]) {
      assert RankLe(rank(sorted[i]), rank(sorted[j]));
    }
    forall c, d | c in top && d in keys && d !in top ensures ScoreOf(scores, c) >= ScoreOf(scores, d) {
      assert d in multiset(sorted);
      var jd :| 0 <= jd < |sorted| && sorted[jd] == d;
      var ic :| 0 <= ic < |top| && top[ic] == c;
      assert jd >= |top|;
      assert RankLe(rank(sorted[ic]), rank(sorted[jd]));
    }
  }

  /** The retrieved context: the best chunks joined by a blank line; an empty store gives "". */
  function Context(store: map<string, Vector>, keys: seq<string>, question: Vector, similarity: (Vector, Vector) -> real): (r: string)
    requires forall k | k in keys :: k in store
    ensures keys == [] ==> r == []
  {
    Join(TopChunks(Scores(store, keys, question, similarity), keys, TopKChunks), ContextSeparator)
  }

  lemma TemplateParts(header: string, context: string, middle: string, question: string)
    ensures StartsWith(header + context + middle + question, header)
    ensures EndsWith(header + context + middle + question, question)
    ensures |header + context + middle + question| >= |header| + |context|
    ensures (header + context + middle + question)[|header|..|header| + |context|] == context
  {
    var r := header + context + middle + question;
    assert r[..|header|] == header;
    assert r[|r| - |question|..] == question;
  }

  /** The prompt: the question alone when nothing useful was retrieved, else the reference template. */
  function BuildPrompt(question: string, context: string): (r: string)
    ensures IsBlank(context) ==> r == question
    ensures !IsBlank(context) ==> StartsWith(r, PromptHeader) && EndsWith(r, question)
    ensures !IsBlank(context) ==> |r| >= |PromptHeader| + |context| && r[|PromptHeader|..|PromptHeader| + |context|] == context
  {
    if Trim(context) == [] then question
    else
      TemplateParts(PromptHeader, context, QuestionHeader, question);
      PromptHeader + context + QuestionHeader + question
  }

  /** The answer `getChatResponse` completes with, given the services. */
  function Answer(ready: bool, store: map<string, Vector>, keys: seq<string>, question: string,
                  embed: string -> Option<Vector>, similarity: (Vector, Vector) -> real,
                  complete: string -> seq<Option<string>>): string
    requires forall k | k in keys :: k in store
  {
    if !ready then NotReadyAnswer
    else match embed(question)
      case None => ErrorAnswerPrefix + WrappedCausePrefix + EmbeddingFailure
      case Some(questionVector) =>
        var choices := complete(BuildPrompt(question, Context(store, keys, questionVector, similarity)));
        if choices == [] then ErrorAnswerPrefix + WrappedCausePrefix + NoChoiceFailure
        else choices[0].GetOr([])
  }

  /** While the service is not ready the answer is the placeholder, whatever the services would do. */
  lemma NotReadyIgnoresServices(store: map<string, Vector>, keys: seq<string>, question: string,
                                embed1: string -> Option<Vector>, embed2: string -> Option<Vector>,
                                similarity1: (Vector, Vector) -> real, similarity2: (Vector, Vector) -> real,
                                complete1: string -> seq<Option<string>>, complete2: string -> seq<Option<string>>)
    requires forall k | k in keys :: k in store
    ensures Answer(false, store, keys, question, embed1, similarity1, complete1) == NotReadyAnswer
    ensures Answer(false, store, keys, question, embed1, similarity1, complete1)
      == Answer(false, store, keys, question, embed2, similarity2, complete2)
  {
  }

  /** With an empty store, a ready service sends the bare question to the completion service. */
  lemma EmptyStoreSendsQuestion(question: string, questionVector: Vector, similarity: (Vector, Vector) -> real)
    ensures BuildPrompt(question, Context(map[], [], questionVector, similarity)) == question
  {
  }

  /** The store after ingesting a document: its Markdown is chunked and every chunk is embedded and stored. */
  function Ingested(store: map<string, Vector>, events: seq<LayoutParser.LayoutEvent>,
                    embed: string -> Option<Vector>): map<string, Vector> {
    StoreAll(store, Chunker.ChunksOf(LayoutParser.MarkdownOf(events), false), embed)
  }

  class RagServiceInstance {
    var isReady: bool
    var vectorStore: map<string, Vector>
    const systemPrompt: string

    constructor (systemPrompt: string)
      ensures !isReady && vectorStore == map[] && this.systemPrompt == systemPrompt
    {
      isReady := false;
      vectorStore := map[];
      this.systemPrompt := systemPrompt;
    }

    /**
     * `startRagInitialization`: ingestion either completes and the service becomes ready, or
     * fails (the error is logged) and the flag stays as it was. Nothing ever lowers the flag.
     */
    method StartRagInitialization(document: Option<seq<LayoutParser.LayoutEvent>>, embed: string -> Option<Vector>)
      modifies this
      ensures document.None? ==> isReady == old(isReady) && vectorStore == old(vectorStore)
      ensures document.Some? ==> isReady && vectorStore == Ingested(old(vectorStore), document.value, embed)
    {
      ghost var before := isReady;
      var completed := InitializeRagData(document, embed);
      assert isReady == before;
      if completed {
        isReady := true;
      }
    }

    /**
     * `initializeRagData`: a missing document is an error and stores nothing; otherwise the
     * document is parsed, chunked, and every chunk whose embedding succeeds is put in the store.
     */
    method InitializeRagData(document: Option<seq<LayoutParser.LayoutEvent>>, embed: string -> Option<Vector>)
      returns (completed: bool)
      modifies `vectorStore
      ensures completed <==> document.Some?
      ensures document.None? ==> vectorStore == old(vectorStore)
      ensures document.Some? ==> vectorStore == Ingested(old(vectorStore), document.value, embed)
    {
      if document.None? {
        return false;
      }
      var markdownText := ParseDocument(document.value);
      var finalFilteredChunks := Chunker.ChunkMarkdown(markdownText);
      StoreChunks(finalFilteredChunks, embed);
      completed := true;
    }

    /** Step 1 of `initializeRagData`: a fresh stripper run over the document. */
    static method ParseDocument(events: seq<LayoutParser.LayoutEvent>) returns (markdownText: string)
      ensures markdownText == LayoutParser.MarkdownOf(events)
    {
      var stripper := new LayoutParser.LayoutAwareStripper();
      var _ := stripper.GetText(events);
      markdownText := stripper.GetMarkdownResult();
    }

    /** Step 4 of `initializeRagData`: each successful embedding is put under its chunk's text. */
    method StoreChunks(chunks: seq<string>, embed: string -> Option<Vector>)
      modifies `vectorStore
      ensures vectorStore == StoreAll(old(vectorStore), chunks, embed)
    {
      var i := 0;
      while i < |chunks|
        invariant 0 <= i <= |chunks|
        invariant vectorStore == StoreAll(old(vectorStore), chunks[..i], embed)
      {
        assert chunks[..i + 1][..i] == chunks[..i];
        var chunk := chunks[i];
        var entry := embed(chunk);
        if entry.Some? {
          vectorStore := vectorStore[chunk := entry.value];
        }
        i := i + 1;
      }
      assert chunks[..i] == chunks;
    }

    /** `findSimilarChunks`: scores every stored chunk against the question, keeps the `topK` best. */
    method FindSimilarChunks(questionVector: Vector, topK: nat, keys: seq<string>, similarity: (Vector, Vector) -> real)
      returns (r: string)
      requires Enumerates(keys, vectorStore)
      ensures r == Join(TopChunks(Scores(vectorStore, keys, questionVector, similarity), keys, topK), ContextSeparator)
    {
      var store := vectorStore;
      assert forall k | k in keys :: k in store;
      var similarityScores: map<string, real> := map[];
      var i := 0;
      while i < |keys|
        invariant 0 <= i <= |keys|
        invariant similarityScores == Scores(store, keys[..i], questionVector, similarity)
      {
        ScoresSnoc(store, keys, i, questionVector, similarity);
        similarityScores := similarityScores[keys[i] := similarity(questionVector, store[keys[i]])];
        i := i + 1;
      }
      assert keys[..i] == keys;
      r := Join(TopChunks(similarityScores, keys, topK), ContextSeparator);
    }

    /** `getChatResponse`: the readiness gate, then embedding, retrieval, prompt and completion. */
    method GetChatResponse(question: string, keys: seq<string>, embed: string -> Option<Vector>,
                           similarity: (Vector, Vector) -> real,
                           complete: (string, string) -> seq<Option<string>>)
      returns (answer: string)
      requires Enumerates(keys, vectorStore)
      ensures answer == Answer(isReady, vectorStore, keys, question, embed, similarity, prompt => complete(systemPrompt, prompt))
      ensures !isReady ==> answer == NotReadyAnswer
    {
      if !isReady {
        return NotReadyAnswer;
      }
      var questionVector := embed(question);
      if questionVector.None? {
        return ErrorAnswerPrefix + WrappedCausePrefix + EmbeddingFailure;
      }
      var retrievedContext := FindSimilarChunks(questionVector.value, TopKChunks, keys, similarity);
      var augmentedPrompt := BuildPrompt(question, retrievedContext);
      var choices := complete(systemPrompt, augmentedPrompt);
      if choices == [] {
        return ErrorAnswerPrefix + WrappedCausePrefix + NoChoiceFailure;
      }
      answer := choices[0].GetOr([]);
    }
  }
}

# nohudorak backend core, modelled in Dafny

nohudorak is a Spring backend for a retirement-finance service. It serves bookings of branch
visits, a deposit/savings product catalogue, a news feed crawled from the web, gift recipients and
a gift-tax simulation with its strategy advice, a user's asset status and the recommendations it
drives, a retrieval-augmented chat answer over one reference document, Kakao login with JWT
tokens, the CODEF bank-account sync, the preference survey, the home page, and the booking
confirmation text message.

The model follows the Java services one module each:

- `LayoutParser` is the layout stripper. `ChunkText` and `Chunker` turn the structured text into
  chunks, and `RagService` covers the vector store, retrieval and the answer pipeline.
- `Products`, `ProductService` and `NewsService` are the catalogue and the news crawl.
- `RecipientService`, `GiftTax` and `GiftStrategy` are the gift simulation.
- `AssetStatusService`, `UserDtos`, `UserService`, `PreferenceService` and
  `CustomRecommendService` cover a user's assets, profile, survey and recommendations.
- `BookingCodes`, `BookingDtos` and `BookingService` are bookings.
- `HomeService` is the home page and `SmsService` the confirmation message.
- `KakaoAuth`, `JwtFilter` and `CodefTokenService` cover sign-in, the request filter and the
  account sync.
- `Wrappers`, `JavaText`, `Dates`, `Sorting` and `Tables` are shared:
  - `Wrappers` holds `Option` and `Result`; a Java exception is an `Err` naming its kind.
  - `JavaText` holds the `String` operations the services use: `trim`, `replace`, `%03d`.
  - `Dates` holds calendar dates and their ISO and `yyMMdd` formats.
  - `Sorting` holds the sort that `List.sort` performs, proved stable.

The MyBatis mapper tables live in one `Tables.Database` object. Services that write them are
methods that modify it. Everything a service only reads is passed in as a value.

- A `@Transactional` method is atomic: its contract states that the tables are unchanged when it
  ends in an error.
- `BookingService.BookingsValid` is the invariant of the booking table: booking ids and
  (branch, date, time) slots are each unique. Every method that writes bookings preserves it.
  Booking codes are not unique: the daily sequence is the day's count plus one, so a code can
  come back after a delete, and the lookup by code then fails with MyBatis'
  `TooManyResultsException`.
- The services and the document pipeline follow the program as written, including its faults.
  Where a fault is listed under "## Findings", the corrected definition sits beside the
  as-written one with its intended property proved.
- A new booking's ULID is a parameter. Its freshness is a precondition, because ULID generation
  is outside the model.

What the outside world does becomes a function parameter:

- the clock;
- the HTTP clients (OpenAI, Kakao, CODEF, CoolSMS, Jsoup);
- JWT parsing and signing;
- cosine similarity;
- `Long.parseLong`.

## Model

| member | source | states |
|---|---|---|
| LayoutParser.LineBreak | src/main/java/org/scoula/gpt/service/GptServiceImpl.java:264-284 | a block starts a new line exactly when there is no previous line or the height moved by more than 1.0; the separator only appends (at most two characters, none at a page top); a new line after text leaves the buffer ending in a newline, and a same-line block leaves it ending in a space or a newline |
| LayoutParser.ParagraphBoundary | src/main/java/org/scoula/gpt/service/GptServiceImpl.java:293-298 | before a heading the buffer is empty or ends in a blank line, and an empty buffer stays empty |
| LayoutParser.DropTrailingBreak | src/main/java/org/scoula/gpt/service/GptServiceImpl.java:304-308 | a junk glyph removes one trailing blank line, else one trailing newline, else nothing; what is left is a prefix of the buffer |
| LayoutParser.Emit | src/main/java/org/scoula/gpt/service/GptServiceImpl.java:290-318 | a large-font new line becomes a `## ` heading on a fresh paragraph, a junk glyph on a new line only drops the trailing break, any other new line appends the trimmed text, and a same-line block appends the untrimmed text |
| LayoutParser.HeadingOnFreshParagraph | src/main/java/org/scoula/gpt/service/GptServiceImpl.java:291-299 | a large-font, non-junk new line is written as `## ` and its trimmed text after an empty buffer or one that ends in a blank line |
| LayoutParser.AfterWriteString | src/main/java/org/scoula/gpt/service/GptServiceImpl.java:208-325 | empty positions, blank text and ended content change nothing; the flags only go from false to true, content starts only at a block whose trimmed text is the start marker, ends at a block containing the end marker, which sets only the ended flag, and noise adds nothing; the remembered height is the old one or the block's last height |
| LayoutParser.AfterBlock | src/main/java/org/scoula/gpt/service/GptServiceImpl.java:246-324 | the content flags are kept; a table-of-contents line or a block in the header or footer band changes nothing; otherwise the new-line decision is the height rule, and a junk glyph on a new line keeps the remembered height and font size |
| LayoutParser.AfterPageEnd | src/main/java/org/scoula/gpt/service/GptServiceImpl.java:329-336 | a page end inside the content appends a blank line and outside it appends nothing; the remembered height and font size are reset |
| LayoutParser.EndedIsFinal | src/main/java/org/scoula/gpt/service/GptServiceImpl.java:221-333 | after the end marker no block and no page end changes the buffer; the flags stay as they are |
| LayoutParser.FlagsAreSticky | src/main/java/org/scoula/gpt/service/GptServiceImpl.java:226-237 | over any sequence of callbacks neither content flag is reset |
| LayoutParser.PreStartHolds | src/main/java/org/scoula/gpt/service/GptServiceImpl.java:233-244 | until content starts the buffer is empty and no line height is remembered |
| LayoutParser.NoStartNoText | src/main/java/org/scoula/gpt/service/GptServiceImpl.java:233-244 | a document in which the start marker never appears yields no Markdown |
| LayoutParser.StartMarkerIsClean | src/main/java/org/scoula/gpt/service/GptServiceImpl.java:173-177 | the start marker contains neither the end marker nor the leader pattern and is not a junk glyph, so the start block is never filtered as such |
| LayoutParser.StartMarkerIsKept | src/main/java/org/scoula/gpt/service/GptServiceImpl.java:235-238 | the start-marker block starts the content and, inside the page body, becomes the first text of the buffer (a heading when its font is large) |
| LayoutParser.JunkLeavesPosition | src/main/java/org/scoula/gpt/service/GptServiceImpl.java:301-324 | a junk glyph on a new line keeps the remembered height and font size and grows the buffer by at most the two separator characters |
| LayoutParser.LayoutAwareStripper.constructor | src/main/java/org/scoula/gpt/service/GptServiceImpl.java:154-194 | a new stripper is in the initial state: no content seen, empty buffer, no line height |
| LayoutParser.LayoutAwareStripper.WriteString | src/main/java/org/scoula/gpt/service/GptServiceImpl.java:208-325 | the new state is `AfterWriteString` of the old one |
| LayoutParser.LayoutAwareStripper.PlaceBlock | src/main/java/org/scoula/gpt/service/GptServiceImpl.java:246-324 | the new state is `AfterBlock` of the old one |
| LayoutParser.LayoutAwareStripper.InsertSeparator | src/main/java/org/scoula/gpt/service/GptServiceImpl.java:264-284 | the buffer and the new-line flag are those `LineBreak` gives |
| LayoutParser.LayoutAwareStripper.AppendBlock | src/main/java/org/scoula/gpt/service/GptServiceImpl.java:290-318 | the buffer is the one `Emit` gives |
| LayoutParser.LayoutAwareStripper.WritePageEnd | src/main/java/org/scoula/gpt/service/GptServiceImpl.java:329-336 | the new state is `AfterPageEnd` of the old one |
| LayoutParser.LayoutAwareStripper.GetMarkdownResult | src/main/java/org/scoula/gpt/service/GptServiceImpl.java:199-201 | the trimmed buffer, which is empty or starts and ends with a non-blank character |
| LayoutParser.LayoutAwareStripper.GetText | src/main/java/org/scoula/gpt/service/GptServiceImpl.java:359-364 | replaying the callbacks reaches the state `Run` gives, and the result is its trimmed buffer |
| ChunkText.StripRunningHeads | src/main/java/org/scoula/gpt/service/GptServiceImpl.java:497 | the running-head pass only deletes text: the result is no longer than its input |
| ChunkText.StripPageNumbers | src/main/java/org/scoula/gpt/service/GptServiceImpl.java:498 | the page-number pass only deletes text, including the blank lines its greedy `\\s*` swallows |
| ChunkText.CollapseBlankLines | src/main/java/org/scoula/gpt/service/GptServiceImpl.java:499 | collapsing a newline, white space and more newlines into one blank line never lengthens the text |
| ChunkText.PostProcess | src/main/java/org/scoula/gpt/service/GptServiceImpl.java:495-501 | the cleaned chunk is no longer than the raw one and, being trimmed, neither starts nor ends with white space |
| ChunkText.NextHeading | src/main/java/org/scoula/gpt/service/GptServiceImpl.java:381 | finds the first heading split point (a newline, `##`, a white-space character) at or after the search position, and says none exists when it returns nothing |
| ChunkText.SplitSections | src/main/java/org/scoula/gpt/service/GptServiceImpl.java:381 | the Markdown splits into at least one section; the first is a prefix of the text and every later one starts with a newline and `##` |
| ChunkText.SectionsCoverText | src/main/java/org/scoula/gpt/service/GptServiceImpl.java:381 | the sections put back together are the whole Markdown |
| ChunkText.NextSplitter | src/main/java/org/scoula/gpt/service/GptServiceImpl.java:395 | finds the first blank-line separator at or after the search position, or there is none |
| ChunkText.SplitOnSplitter | src/main/java/org/scoula/gpt/service/GptServiceImpl.java:395 | splitting on the separator yields at least one piece |
| ChunkText.SplitOnSplitterJoins | src/main/java/org/scoula/gpt/service/GptServiceImpl.java:395 | joining the pieces with the blank-line separator gives back the section |
| ChunkText.DropTrailingEmpty | src/main/java/org/scoula/gpt/service/GptServiceImpl.java:395 | `String.split` with limit 0 drops exactly the trailing empty pieces: the result is a prefix with a non-empty last piece and everything removed is empty |
| ChunkText.SplitParagraphs | src/main/java/org/scoula/gpt/service/GptServiceImpl.java:395 | a section without a blank line is its own single piece; otherwise the pieces are the split with trailing empty pieces dropped |
| Chunker.Assemble | src/main/java/org/scoula/gpt/service/GptServiceImpl.java:400-419 | a sub-chunk's text starts with the section title and is the title alone when it holds no paragraph |
| Chunker.AssembleAppend | src/main/java/org/scoula/gpt/service/GptServiceImpl.java:417 | appending a paragraph to the builder appends the blank-line separator and the paragraph |
| Chunker.Groups | src/main/java/org/scoula/gpt/service/GptServiceImpl.java:403-425 | the packing loop always closes at least one sub-chunk |
| Chunker.GroupsKeepParagraphs | src/main/java/org/scoula/gpt/service/GptServiceImpl.java:403-420 | packing loses, duplicates and reorders no non-blank paragraph: the sub-chunks flattened are exactly the trimmed non-blank paragraphs |
| Chunker.GroupsRespectLimit | src/main/java/org/scoula/gpt/service/GptServiceImpl.java:407-418 | every sub-chunk holding two or more paragraphs stays within 10,000 characters |
| Chunker.LaterGroupsNonEmpty | src/main/java/org/scoula/gpt/service/GptServiceImpl.java:407-414 | only the first sub-chunk can be the bare title; every later one carries a paragraph |
| Chunker.Close | src/main/java/org/scoula/gpt/service/GptServiceImpl.java:408-412 | closing yields at most one chunk, the post-processed text, and only when it is valid; the program never cuts it, and the corrected variant cuts it to the limit first |
| Chunker.PackClosesGroups | src/main/java/org/scoula/gpt/service/GptServiceImpl.java:403-425 | the builder loop emits exactly the closed sub-chunks of the grouping, in order |
| Chunker.ClosedChunkValid | src/main/java/org/scoula/gpt/service/GptServiceImpl.java:408-412 | every closed sub-chunk is valid, and within the limit when it is enforced |
| Chunker.PackedChunksValid | src/main/java/org/scoula/gpt/service/GptServiceImpl.java:403-425 | every chunk the packing loop emits is valid, and within the limit when it is enforced |
| Chunker.ForcedCutIsKept | src/main/java/org/scoula/gpt/service/GptServiceImpl.java:426-434 | an oversized section without a blank line contributes exactly its first 10,000 characters post-processed, valid or not |
| Chunker.SectionChunksValid | src/main/java/org/scoula/gpt/service/GptServiceImpl.java:386-442 | apart from the forced cut, every chunk a section contributes is valid |
| Chunker.ShortSectionOneChunk | src/main/java/org/scoula/gpt/service/GptServiceImpl.java:436-442 | a section within the limit contributes at most one chunk |
| Chunker.SectionChunksWithinLimit | src/main/java/org/scoula/gpt/service/GptServiceImpl.java:386-442 | corrected: with the limit enforced on packed sub-chunks, no chunk of any section exceeds 10,000 characters |
| Chunker.AllChunksWithinLimit | src/main/java/org/scoula/gpt/service/GptServiceImpl.java:386-443 | corrected: no chunk of the whole document exceeds the limit |
| Chunker.DropAppendix | src/main/java/org/scoula/gpt/service/GptServiceImpl.java:448-453 | the filter keeps exactly the chunks not starting with `## ABC` or the contributors heading, and invents none |
| Chunker.ChunksWithinLimit | src/main/java/org/scoula/gpt/service/GptServiceImpl.java:381-453 | corrected: every chunk of the corrected pipeline that reaches the embedding step is within the limit and is not appendix material |
| Chunker.LongParagraphOverflows | src/main/java/org/scoula/gpt/service/GptServiceImpl.java:403-425 | as written: a section made of a short title and one paragraph of at least 10,000 letters is emitted whole, longer than the limit |
| Chunker.PackOversized | src/main/java/org/scoula/gpt/service/GptServiceImpl.java:397-425 | the re-packing loop computes the packed sub-chunks of the title and the remaining paragraphs, as written, with no cut |
| Chunker.ChunkSection | src/main/java/org/scoula/gpt/service/GptServiceImpl.java:387-442 | the chunks one raw section contributes as written: packed, forced-cut or the single cleaned chunk |
| Chunker.ChunkSections | src/main/java/org/scoula/gpt/service/GptServiceImpl.java:383-443 | the first-pass chunk list is every raw section's contribution as written, section after section, in order |
| Chunker.AllChunksFromSections | src/main/java/org/scoula/gpt/service/GptServiceImpl.java:383-443 | every chunk of the first pass is a chunk of one of the raw sections |
| Chunker.FlushAllFrom | src/main/java/org/scoula/gpt/service/GptServiceImpl.java:408-425 | as written, every packed chunk is the post-processed text of one sub-chunk of the grouping |
| Chunker.PackOverLimitOnlySingle | src/main/java/org/scoula/gpt/service/GptServiceImpl.java:403-425 | as written, a packed chunk over the limit comes from a sub-chunk holding at most one paragraph |
| Chunker.SectionOverLimitOnlySingle | src/main/java/org/scoula/gpt/service/GptServiceImpl.java:386-442 | as written, a section chunk over the limit arises only when the section was re-packed, from a sub-chunk of at most one paragraph |
| Chunker.CloseAgreesWithinLimit | src/main/java/org/scoula/gpt/service/GptServiceImpl.java:408-412 | on a text within the limit closing with and without the cut agree |
| Chunker.ChunksOfFromSections | src/main/java/org/scoula/gpt/service/GptServiceImpl.java:448-453 | every chunk left after the appendix filter is not appendix material and comes from one raw section |
| Chunker.ChunkMarkdown | src/main/java/org/scoula/gpt/service/GptServiceImpl.java:381-453 | the chunks of the parsed Markdown as the program computes them, appendix removed; none is appendix material, and each comes from one section of the document |
| RagService.StoreAllContents | src/main/java/org/scoula/gpt/service/GptServiceImpl.java:463-478 | after ingestion the store holds its old keys plus exactly the chunks whose embedding succeeded, each under its own vector, and every other entry keeps its value |
| RagService.Scores | src/main/java/org/scoula/gpt/service/GptServiceImpl.java:552-556 | the score map has exactly the stored chunks as keys, each scored by the similarity of the question to its vector |
| RagService.TopChunksAreBest | src/main/java/org/scoula/gpt/service/GptServiceImpl.java:557-560 | the retrieved chunks number `min(topK, stored)`, are stored chunks, come in non-increasing score order, and no chunk left out scores higher than one retrieved |
| RagService.Context | src/main/java/org/scoula/gpt/service/GptServiceImpl.java:557-561 | an empty store gives the empty context |
| RagService.TemplateParts | src/main/java/org/scoula/gpt/service/GptServiceImpl.java:623-627 | the reference prompt starts with its header, ends with the question and holds the context right after the header |
| RagService.BuildPrompt | src/main/java/org/scoula/gpt/service/GptServiceImpl.java:619-628 | a blank context sends the bare question; otherwise the prompt starts with the reference header, carries the context right after it and ends with the question |
| RagService.NotReadyIgnoresServices | src/main/java/org/scoula/gpt/service/GptServiceImpl.java:588-593 | before ingestion completes the answer is the placeholder, whatever the embedding, similarity and completion services would do |
| RagService.EmptyStoreSendsQuestion | src/main/java/org/scoula/gpt/service/GptServiceImpl.java:619-621 | with nothing stored the completion service receives the bare question |
| RagService.RagServiceInstance.constructor | src/main/java/org/scoula/gpt/service/GptServiceImpl.java:61-65 | a new service is not ready and has an empty vector store |
| RagService.RagServiceInstance.StartRagInitialization | src/main/java/org/scoula/gpt/service/GptServiceImpl.java:126-142 | a missing document leaves the flag and store unchanged; otherwise the store gains the document's embedded chunks and the service becomes ready |
| RagService.RagServiceInstance.InitializeRagData | src/main/java/org/scoula/gpt/service/GptServiceImpl.java:348-489 | a missing document fails and stores nothing; otherwise the store becomes the old store with every successfully embedded chunk of the parsed, chunked document added |
| RagService.RagServiceInstance.ParseDocument | src/main/java/org/scoula/gpt/service/GptServiceImpl.java:359-365 | a fresh stripper over the document produces the Markdown the layout model defines |
| RagService.RagServiceInstance.StoreChunks | src/main/java/org/scoula/gpt/service/GptServiceImpl.java:463-478 | the store becomes the old store with each successfully embedded chunk put under its text |
| RagService.RagServiceInstance.FindSimilarChunks | src/main/java/org/scoula/gpt/service/GptServiceImpl.java:551-562 | the result is the `topK` best-scoring stored chunks joined by a blank line |
| RagService.RagServiceInstance.GetChatResponse | src/main/java/org/scoula/gpt/service/GptServiceImpl.java:584-657 | the answer is the placeholder when not ready; otherwise the completion of the augmented prompt, or the error message for a failed question embedding or an empty choice list |
| Products.Header | src/main/java/org/scoula/product/struct/ProductVoToMapper.java:65-76 | a detail header carries the product's code, name, feature and the five company fields |
| Products.ListForm | src/main/java/org/scoula/product/struct/ProductVoToMapper.java:43-48 | the list form keeps the given option list |
| Products.WithoutJoinPriceAndTerm | src/main/java/org/scoula/product/struct/ProductVoToMapper.java:79-83 | the detail DTO copies maturity interest, special conditions, join restriction, join member and note, and leaves join price and join term `null` |
| Products.ToDepositSimpleDto | src/main/java/org/scoula/product/struct/ProductVoToMapper.java:34-49 | the deposit list DTO has the product's code, name and feature and one option per deposit option with its term and both rates |
| Products.ToSavingSimpleDto | src/main/java/org/scoula/product/struct/ProductVoToMapper.java:95-110 | the saving list DTO has the product's code, name and feature and one option per saving option with its term and both rates |
| Products.ToMortgageSimpleDto | src/main/java/org/scoula/product/struct/ProductVoToMapper.java:159-176 | the mortgage list DTO has the list fields and one option per mortgage option, none carrying the average rate |
| Products.ToFundSimpleDto | src/main/java/org/scoula/product/struct/ProductVoToMapper.java:224-239 | the fund list DTO has the list fields and one option per fund option with its three-month rate, risk grade and standard price |
| Products.ToGoldSimpleDto | src/main/java/org/scoula/product/struct/ProductVoToMapper.java:282-289 | the gold list DTO has the list fields and no options |
| Products.ToTrustSimpleDto | src/main/java/org/scoula/product/struct/ProductVoToMapper.java:323-330 | the trust list DTO has the list fields and no options |
| Products.ToDepositDto | src/main/java/org/scoula/product/struct/ProductVoToMapper.java:56-88 | the deposit detail DTO has the full header, the join terms without price and term, and one option per deposit option without its rate-type name |
| Products.ToSavingDto | src/main/java/org/scoula/product/struct/ProductVoToMapper.java:117-152 | the saving detail DTO has the full header, the join terms without price and term, and one option per saving option with all five fields |
| Products.ToMortgageDto | src/main/java/org/scoula/product/struct/ProductVoToMapper.java:183-217 | the mortgage detail DTO has the full header, the mortgage terms, and one option per mortgage option keeping its average rate |
| Products.ToFundDto | src/main/java/org/scoula/product/struct/ProductVoToMapper.java:246-275 | the fund detail DTO has the full header and one option per fund option |
| Products.ToGoldDto | src/main/java/org/scoula/product/struct/ProductVoToMapper.java:296-316 | the gold detail DTO has the full header and the gold terms |
| Products.ToTrustDto | src/main/java/org/scoula/product/struct/ProductVoToMapper.java:337-363 | the trust detail DTO has the full header and the trust terms |
| Products.DepositListIsDetailSummary | src/main/java/org/scoula/product/struct/ProductVoToMapper.java:34-88 | a deposit's list DTO is its detail DTO reduced to the list fields and the term-and-rates options |
| Products.SavingListIsDetailSummary | src/main/java/org/scoula/product/struct/ProductVoToMapper.java:95-152 | a saving's list DTO is its detail DTO reduced to the list fields and the term-and-rates options |
| Products.MortgageListIsDetailSummary | src/main/java/org/scoula/product/struct/ProductVoToMapper.java:159-217 | a mortgage's list options are its detail options with the average rate cleared |
| Products.FundListIsDetailSummary | src/main/java/org/scoula/product/struct/ProductVoToMapper.java:224-275 | a fund's list options keep three of the eight fields of its detail options |
| ProductService.FilterMapStep | src/main/java/org/scoula/product/service/ProductsServiceImpl.java:51-67 | filtering then mapping one more product adds its image exactly when it passes the filter |
| ProductService.PartitionedStep | src/main/java/org/scoula/product/service/ProductsServiceImpl.java:51-67 | one more product is added to the end of the list of its own type and to no other |
| ProductService.Place | src/main/java/org/scoula/product/service/ProductsServiceImpl.java:52-66 | one pass of the `instanceof` chain appends the product's list DTO to its type's list, leaves the other five lists as they were, and places a product of no listed type nowhere |
| ProductService.FindAllProducts | src/main/java/org/scoula/product/service/ProductsServiceImpl.java:40-78 | the six lists are each type's products of the catalogue, in catalogue order, as list DTOs |
| ProductService.PartitionCounts | src/main/java/org/scoula/product/service/ProductsServiceImpl.java:51-67 | the listed products and the products of no listed type together number the whole catalogue |
| ProductService.PartitionPlacesEach | src/main/java/org/scoula/product/service/ProductsServiceImpl.java:51-67 | every product of a listed type appears in its own list as its list DTO, and every list entry comes from a product of that type |
| ProductService.ImageOf | src/main/java/org/scoula/product/service/ProductsServiceImpl.java:51-67 | a product of the catalogue has its image in the mapped list |
| ProductService.GetProductDetail | src/main/java/org/scoula/product/service/ProductsServiceImpl.java:87-96 | `NoSuchElementException` exactly when no product has the code; otherwise a catalogue product with that code |
| ProductService.DetailOfListedProduct | src/main/java/org/scoula/product/service/ProductsServiceImpl.java:87-96 | with distinct codes every product is the detail of its own code |
| NewsService.Keywords | src/main/java/org/scoula/news/service/NewsServiceImpl.java:63-70 | exactly the categories 1 to 6 have keywords |
| NewsService.CountMatchesAny | src/main/java/org/scoula/news/service/NewsServiceImpl.java:81-83 | counting the contained keywords gives at least one exactly when some keyword is contained |
| NewsService.AnyKeywordMatches | src/main/java/org/scoula/news/service/NewsServiceImpl.java:84-97 | the keyword loop with its `break` sets the match flag exactly when some keyword passes |
| NewsService.TitleMatches | src/main/java/org/scoula/news/service/NewsServiceImpl.java:80-98 | the match flag equals the category's rule: category 4 by its patterns, every other by containing a keyword |
| NewsService.FindByCategory | src/main/java/org/scoula/news/service/NewsServiceImpl.java:110 | the row found is a stored row of the category, and none is found exactly when no row has the category |
| NewsService.Upsert | src/main/java/org/scoula/news/service/NewsServiceImpl.java:118 | the written row is in the table, the table grows by at most one, rows with another category and link are untouched and no key is lost |
| NewsService.UpsertKeepsKeysDistinct | src/main/java/org/scoula/news/service/NewsServiceImpl.java:136 | an upsert keeps category-and-link keys distinct, and the written key is held by the written row alone |
| NewsService.UpsertKeepsKeys | src/main/java/org/scoula/news/service/NewsServiceImpl.java:136 | every key of the table survives an upsert |
| NewsService.CategoryStep | src/main/java/org/scoula/news/service/NewsServiceImpl.java:77-123 | one category reports nothing or just itself |
| NewsService.SaveCategory | src/main/java/org/scoula/news/service/NewsServiceImpl.java:73-123 | one pass over the articles has the effect and report that the category step defines |
| NewsService.SaveLatest | src/main/java/org/scoula/news/service/NewsServiceImpl.java:126-137 | the first `min(n, 5)` articles are upserted under category 0 in order |
| NewsService.LatestCount | src/main/java/org/scoula/news/service/NewsServiceImpl.java:127 | the category-0 loop writes at most five articles and never more than the list holds: five, or all when fewer |
| NewsService.CrawlAndSaveNews | src/main/java/org/scoula/news/service/NewsServiceImpl.java:50-145 | a failed fetch reports nothing and writes nothing; otherwise the table and report are those of the crawl; keys stay distinct either way |
| NewsService.CategoryStepActsOnFirstMatch | src/main/java/org/scoula/news/service/NewsServiceImpl.java:100-122 | the category is reported exactly when the first matching article finds no row or a row with another title, and then that article's row is stored |
| NewsService.CategoryStepWithoutMatch | src/main/java/org/scoula/news/service/NewsServiceImpl.java:100-102 | a category no article matches is neither reported nor written |
| NewsService.CategoryStepKeepsKeysDistinct | src/main/java/org/scoula/news/service/NewsServiceImpl.java:113-120 | every write of a category step keeps the keys distinct |
| NewsService.CategoriesKeepKeysDistinct | src/main/java/org/scoula/news/service/NewsServiceImpl.java:73-124 | processing all six categories keeps the keys distinct |
| NewsService.LatestKeepsKeysDistinct | src/main/java/org/scoula/news/service/NewsServiceImpl.java:126-137 | upserting the latest articles keeps the keys distinct |
| NewsService.CrawlKeepsKeysDistinct | src/main/java/org/scoula/news/service/NewsServiceImpl.java:73-138 | a crawl never stores two rows with one category and link |
| NewsService.ReportedInOrder | src/main/java/org/scoula/news/service/NewsServiceImpl.java:73-124 | the categories reported come from the processed list and in its ascending order |
| NewsService.ZeroAppended | src/main/java/org/scoula/news/service/NewsServiceImpl.java:138 | the categories reported lie in 1 to 6 in ascending order, followed by 0 |
| NewsService.CrawlReports | src/main/java/org/scoula/news/service/NewsServiceImpl.java:73-138 | a successful crawl reports each of the categories 1 to 6 at most once, ascending, then 0 once and last |
| NewsService.LatestStoresEach | src/main/java/org/scoula/news/service/NewsServiceImpl.java:128-137 | after the latest-articles loop each of the first `k` articles has a category-0 row under its link |
| NewsService.CrawlStoresLatest | src/main/java/org/scoula/news/service/NewsServiceImpl.java:126-137 | a successful crawl stores each of the first five articles (all of them when fewer) under category 0 |
| NewsService.AllNews | src/main/java/org/scoula/news/service/NewsServiceImpl.java:152-157 | the listing has one DTO per stored row, in table order, with its category, title, link, date and summary |
| NewsService.AllNewsInjective | src/main/java/org/scoula/news/service/NewsServiceImpl.java:152-157 | two tables give the same listing exactly when they are equal |
| RecipientService.ToVo | src/main/java/org/scoula/gift/dto/RecipientRequestDto.java:40-52 | the row a request writes carries the caller's email and the id it is written under |
| RecipientService.From | src/main/java/org/scoula/gift/dto/RecipientResponseDto.java:51-69 | the response keeps the id and shows the birth date as `yyyy-MM-dd`, or `""` exactly when it is absent |
| RecipientService.ResponseDeterminesRequest | src/main/java/org/scoula/gift/dto/RecipientResponseDto.java:51-69 | only the email is lost between request and response: two requests with real four-digit-year birth dates that answer alike under one id are the same request |
| RecipientService.FindById | src/main/java/org/scoula/gift/service/RecipientServiceImpl.java:46 | the row found is stored with the id, and none is found exactly when no row has the id |
| RecipientService.FindByIdAndEmail | src/main/java/org/scoula/gift/service/RecipientServiceImpl.java:68 | the row found is stored with the id and the owner, and none is found exactly when no row has both |
| RecipientService.FindRecipientByIdAndEmail | src/main/java/org/scoula/gift/service/RecipientServiceImpl.java:66-74 | `NoSuchElementException` exactly when no row has both the id and the owner; otherwise such a row as a response |
| RecipientService.OnlyOwnerFinds | src/main/java/org/scoula/gift/service/RecipientServiceImpl.java:66-74 | the owner of the only row with an id finds it, and anyone else is told it does not exist |
| RecipientService.ReadBack | src/main/java/org/scoula/gift/service/RecipientServiceImpl.java:46-53 | `IllegalStateException` exactly when no row has the id; otherwise a row with the id as a response |
| RecipientService.ReadBackFinds | src/main/java/org/scoula/gift/service/RecipientServiceImpl.java:99-106 | when one row holds an id, the re-read returns exactly that row |
| RecipientService.CreateRecipient | src/main/java/org/scoula/gift/service/RecipientServiceImpl.java:39-54 | the request is appended under the caller's email with the next id, which then advances by one; the read-back returns that row as a response, so the `IllegalStateException` path is never taken |
| RecipientService.OverwriteOnlyThatId | src/main/java/org/scoula/gift/service/RecipientServiceImpl.java:96 | after the update every row with the id is the written row, every other row is unchanged, and no row changes id |
| RecipientService.UpdateRecipient | src/main/java/org/scoula/gift/service/RecipientServiceImpl.java:86-107 | without an owned row with the id: `NoSuchElementException` and no change; otherwise the rows with the id take the request's fields and the caller's email, and the written row is read back |
| RecipientService.UpdateThenFind | src/main/java/org/scoula/gift/service/RecipientServiceImpl.java:86-107 | after an update the owner finds the written fields under the id |
| RecipientService.DeleteRecipient | src/main/java/org/scoula/gift/service/RecipientServiceImpl.java:118-126 | without an owned row with the id: `NoSuchElementException` and no change; otherwise every row with the id is removed and the answer is `true` |
| RecipientService.DeleteThenNotFound | src/main/java/org/scoula/gift/service/RecipientServiceImpl.java:118-126 | after a delete nobody finds the id, and every row with another id is still there |
| RecipientService.Categories | src/main/java/org/scoula/gift/service/RecipientServiceImpl.java:150-172 | one category per group, keyed by its code, with the group's total and its assets |
| RecipientService.GiftPageData | src/main/java/org/scoula/gift/service/RecipientServiceImpl.java:135-179 | `NullPointerException` exactly when one of the user's assets lacks a category code or an amount; otherwise each category carries its own code |
| RecipientService.SumAmountsOfRows | src/main/java/org/scoula/gift/service/RecipientServiceImpl.java:156-158 | the category total is the sum of its rows' amounts |
| RecipientService.GroupedByCode | src/main/java/org/scoula/gift/service/RecipientServiceImpl.java:146-147 | the groups are keyed by exactly the codes of the rows, and each holds the rows of its code in order |
| RecipientService.GiftPageGroups | src/main/java/org/scoula/gift/service/RecipientServiceImpl.java:135-172 | the page's categories are exactly the codes of the user's assets; each lists the user's assets of that code in table order, and its total is the sum of their amounts |
| RecipientService.RowInOneGroup | src/main/java/org/scoula/gift/service/RecipientServiceImpl.java:146-147 | with distinct asset ids, each row appears in the group of its code and in no other |
| RecipientService.GiftPageEachAssetOnce | src/main/java/org/scoula/gift/service/RecipientServiceImpl.java:135-172 | each asset of the user is shown in the category of its code and in no other |
| RecipientService.GiftPageRecipients | src/main/java/org/scoula/gift/service/RecipientServiceImpl.java:137-140 | the page lists every recipient of the email, in table order, and no one else's |
| GiftTax.Max0 | src/main/java/org/scoula/gift/service/SimulationServiceImpl.java:138 | `Math.max(0, x)` is non-negative and at least `x` |
| GiftTax.CalculateTax | src/main/java/org/scoula/gift/service/SimulationServiceImpl.java:368-378 | for a non-negative base the tax lies between zero and half the base |
| GiftTax.MarginalTaxRate | src/main/java/org/scoula/gift/service/SimulationServiceImpl.java:380-390 | the marginal rate is one of 10, 20, 30, 40 and 50 percent |
| GiftTax.TaxAtMarginalRate | src/main/java/org/scoula/gift/service/SimulationServiceImpl.java:368-390 | the tax is the marginal rate applied to the whole base, truncated, less that bracket's progressive deduction |
| GiftTax.BracketsMeet | src/main/java/org/scoula/gift/service/SimulationServiceImpl.java:368-378 | at each bracket limit the formulas of the two neighbouring brackets give the same tax, so the table is continuous |
| GiftTax.TaxMonotone | src/main/java/org/scoula/gift/service/SimulationServiceImpl.java:368-378 | for non-negative bases the tax never decreases as the base grows |
| GiftTax.MinorUntilNineteenthBirthday | src/main/java/org/scoula/gift/service/SimulationServiceImpl.java:403-408 | a recipient born on or before today is a minor exactly until the nineteenth birthday |
| GiftTax.DeductionAmount | src/main/java/org/scoula/gift/service/SimulationServiceImpl.java:392-401 | 600,000,000 exactly for a spouse; 20,000,000 for a minor and 50,000,000 for an adult child or grandchild; 10,000,000 exactly for a sibling or other relative; 0 otherwise, including no recipient or relationship |
| GiftTax.CurrentGiftTax | src/main/java/org/scoula/gift/service/SimulationServiceImpl.java:134-144 | the tax on the current gift (cumulative tax less prior tax, each on a base floored at zero) is never negative for a non-negative gift |
| GiftTax.AssetsTotal | src/main/java/org/scoula/gift/service/SimulationServiceImpl.java:129-131 | the sum of non-negative asset amounts is non-negative |
| GiftTax.CategoriesTotal | src/main/java/org/scoula/gift/service/SimulationServiceImpl.java:129-131 | the sum over all categories of non-negative amounts is non-negative |
| GiftTax.GiftAmount | src/main/java/org/scoula/gift/service/SimulationServiceImpl.java:129-131 | the current gift amount is non-negative when every gifted amount is |
| GiftTax.DetailFor | src/main/java/org/scoula/gift/service/SimulationServiceImpl.java:134-159 | the detail keeps the recipient; its final tax is the current-gift tax plus a surcharge that is zero unless the recipient is a grandchild; both are non-negative for a non-negative gift; the marginal rate is that of the cumulative base |
| GiftTax.SimulateAccounts | src/main/java/org/scoula/gift/service/SimulationServiceImpl.java:116-163 | the result lists exactly the found recipients in request order with one detail line each; the totals are the sums of those lines; the detail map is keyed by the found recipients' ids |
| GiftTax.SimulateNonNegative | src/main/java/org/scoula/gift/service/SimulationServiceImpl.java:116-163 | when every gifted amount is non-negative, every recipient's estimated tax and the total are too |
| GiftTax.CalculateGiftTaxInternal | src/main/java/org/scoula/gift/service/SimulationServiceImpl.java:116-163 | the loop with its running totals computes the simulation result |
| GiftStrategy.RulesByCategory | src/main/java/org/scoula/gift/service/SimulationServiceImpl.java:70-72 | the category's group is non-empty and holds only table rules of that category; there is none exactly when no rule has the category |
| GiftStrategy.FirstWithCode | src/main/java/org/scoula/gift/service/SimulationServiceImpl.java:216-219 | at most one rule, a table rule with the code, and none exactly when no rule has the code |
| GiftStrategy.TotalAssetMatches | src/main/java/org/scoula/gift/service/SimulationServiceImpl.java:210-226 | at most one rule; none below 1,000,000,000; the 5B rule from 5,000,000,000 on and the 1B rule below that; none added only when the table lacks the rule |
| GiftStrategy.RecipientRulesMatch | src/main/java/org/scoula/gift/service/SimulationServiceImpl.java:236-276 | each recipient rule matches exactly when its condition holds: no spouse, a grandchild, a minor, an unmarried child, real estate with a grandchild, real estate with an unmarried child |
| GiftStrategy.MissingCategoryAddsNothing | src/main/java/org/scoula/gift/service/SimulationServiceImpl.java:212-213 | a category with no rules in the table adds no rule, for each of the four checks |
| GiftStrategy.CheckRecipientRules | src/main/java/org/scoula/gift/service/SimulationServiceImpl.java:231-278 | the pass appends exactly the category's rules whose condition holds, in table order |
| GiftStrategy.HistoryRulesMatch | src/main/java/org/scoula/gift/service/SimulationServiceImpl.java:284-300 | the prior-gift rule matches exactly when some recipient has a prior gift, the exceeds-deduction rule exactly when some recipient's prior gifts exceed the deduction, and no other rule matches |
| GiftStrategy.CheckGiftHistoryRules | src/main/java/org/scoula/gift/service/SimulationServiceImpl.java:280-301 | the pass appends exactly the history rules that match, in table order |
| GiftStrategy.TaxPayerMatches | src/main/java/org/scoula/gift/service/SimulationServiceImpl.java:303-314 | at most one rule, the giver-pays rule, only when some recipient's tax is paid by the giver; it is added whenever the table has it and such a recipient exists |
| GiftStrategy.BusinessFlags | src/main/java/org/scoula/gift/service/SimulationServiceImpl.java:330-342 | the two flags are raised exactly when some business asset has the sole-proprietorship or the corporation type |
| GiftStrategy.CheckAssetTypeRules | src/main/java/org/scoula/gift/service/SimulationServiceImpl.java:316-364 | the pass appends exactly the asset-type rules whose condition holds, in table order |
| GiftStrategy.ValuesInOrder | src/main/java/org/scoula/gift/service/SimulationServiceImpl.java:169-170 | one detail value per key in iteration order |
| GiftStrategy.MaxRate | src/main/java/org/scoula/gift/service/SimulationServiceImpl.java:169-173 | the maximum marginal rate is that of some detail and at least every detail's, and 0 without details |
| GiftStrategy.Capped | src/main/java/org/scoula/gift/service/SimulationServiceImpl.java:175 | a weight is at most 120, and non-negative for a non-negative amount |
| GiftStrategy.DynamicWeight | src/main/java/org/scoula/gift/service/SimulationServiceImpl.java:165-208 | the four computed weights never exceed 120, and every other rule weighs exactly its base weight |
| GiftStrategy.Weigh | src/main/java/org/scoula/gift/service/SimulationServiceImpl.java:81-83 | one weighted strategy per matched rule, in order, each keeping its rule |
| GiftStrategy.TopStrategiesAreBest | src/main/java/org/scoula/gift/service/SimulationServiceImpl.java:94-103 | at most seven strategies, ordered by priority level and then by weight, and every one left out has a later level or the same level and no greater weight |
| GiftStrategy.ToResponses | src/main/java/org/scoula/gift/service/SimulationServiceImpl.java:109 | one response per strategy, in order, with its category and message |
| GiftStrategy.GenerateTaxSavingStrategies | src/main/java/org/scoula/gift/service/SimulationServiceImpl.java:66-113 | the strategies are the matched rules ranked and cut to at most seven |
| GiftStrategy.RunGiftTaxSimulation | src/main/java/org/scoula/gift/service/SimulationServiceImpl.java:57-64 | the response carries the simulation's total tax and recipient details and the strategies built on them |
| AssetStatusService.WeightLookupAsWritten | src/main/java/org/scoula/asset/service/AssetStatusServiceImpl.java:36-66 | as written: the `Map.of` lookup throws `NullPointerException` exactly for a missing category code, and otherwise gives the table weight |
| AssetStatusService.NullCategoryCodeThrows | src/main/java/org/scoula/asset/service/AssetStatusServiceImpl.java:58-67 | a row without a category code makes the summary loop throw, although the intended default weight is 0 |
| AssetStatusService.AssetWeight | src/main/java/org/scoula/asset/service/AssetStatusServiceImpl.java:34-43 | every weight lies in [-1, 1], and only the codes 1 to 5 weigh anything |
| AssetStatusService.Summarize | src/main/java/org/scoula/asset/service/AssetStatusServiceImpl.java:55-71 | the summary fails exactly when some row lacks an amount or a category code: with every code present the failure is `IllegalArgumentException`, with every amount present it is `NullPointerException`; otherwise the total is the sum of the amounts and a zero total has proportion 0 |
| AssetStatusService.RowFailure | src/main/java/org/scoula/asset/service/AssetStatusServiceImpl.java:58-66 | a row fails with `IllegalArgumentException` when its amount is `null`, else with `NullPointerException` when its code is `null`, and otherwise goes through |
| AssetStatusService.FirstFailure | src/main/java/org/scoula/asset/service/AssetStatusServiceImpl.java:55-67 | there is a failure exactly when some row is incomplete, and its kind is fixed when only one field can be missing |
| AssetStatusService.FirstFailureAt | src/main/java/org/scoula/asset/service/AssetStatusServiceImpl.java:55-67 | when every row before the `i`-th is complete and that row is not, the failure is that row's |
| AssetStatusService.SummarizeFailsAtFirst | src/main/java/org/scoula/asset/service/AssetStatusServiceImpl.java:55-67 | the summary fails with the exception of the first incomplete row |
| AssetStatusService.SummarizeProportion | src/main/java/org/scoula/asset/service/AssetStatusServiceImpl.java:71 | a non-zero total times the proportion gives back the weighted sum |
| AssetStatusService.WeightedSumWithinTotal | src/main/java/org/scoula/asset/service/AssetStatusServiceImpl.java:58-67 | with no negative amounts the weighted sum lies between minus the total and the total |
| AssetStatusService.ProportionBounded | src/main/java/org/scoula/asset/service/AssetStatusServiceImpl.java:71 | with no negative amounts the proportion lies in [-1, 1] |
| AssetStatusService.InsertAddsToTotal | src/main/java/org/scoula/asset/service/AssetStatusServiceImpl.java:124-127 | inserting a row for the user adds it after the user's rows and its amount to the user's total, and leaves every other user's rows alone |
| AssetStatusService.SameIdSameRow | src/main/java/org/scoula/asset/service/AssetStatusServiceImpl.java:147 | with distinct ids, two stored rows with one id are one row |
| AssetStatusService.CompleteCarriesOver | src/main/java/org/scoula/asset/service/AssetStatusServiceImpl.java:58-66 | a table of stored rows and complete rows keeps the user's rows complete |
| AssetStatusService.IncompletePersists | src/main/java/org/scoula/asset/service/AssetStatusServiceImpl.java:58-66 | an incomplete row of the user that stays in the table keeps the summary failing |
| AssetStatusService.ComputeSummary | src/main/java/org/scoula/asset/service/AssetStatusServiceImpl.java:53-71 | the loop stops at the first row without an amount (`IllegalArgumentException`) or without a category code (`NullPointerException`), exactly as the summary does, and otherwise accumulates exactly its total and weighted sum |
| AssetStatusService.Summarized | src/main/java/org/scoula/asset/service/AssetStatusServiceImpl.java:74-76 | the written-back user carries the total and the proportion and is otherwise unchanged |
| AssetStatusService.SummaryOutcome | src/main/java/org/scoula/asset/service/AssetStatusServiceImpl.java:53-77 | the outcome fails exactly when a row of the user is incomplete or the user is unknown; an incomplete row fails first with its own exception, then an unknown user with `NoSuchElementException`; otherwise the summary of the user's rows |
| AssetStatusService.InSyncChains | src/main/java/org/scoula/asset/service/AssetStatusServiceImpl.java:51-81 | two successive summaries leave the tables as the last summary alone would |
| AssetStatusService.UpdateUserAssetSummary | src/main/java/org/scoula/asset/service/AssetStatusServiceImpl.java:51-81 | on failure nothing is written; on success the user gets the total and proportion of their rows and their recommendations are rebuilt from the updated user |
| AssetStatusService.RowOf | src/main/java/org/scoula/asset/service/AssetStatusServiceImpl.java:120-121 | the inserted row has the id, the caller's email, and the request's amount and category code |
| AssetStatusService.AddAssetStatus | src/main/java/org/scoula/asset/service/AssetStatusServiceImpl.java:116-130 | the id counter advances; on success the row is appended under the next id, the summary is in sync and that id is returned; when the summary fails the transaction leaves the tables as they were |
| AssetStatusService.InsertKeepsIdsValid | src/main/java/org/scoula/asset/service/AssetStatusServiceImpl.java:124 | a row with the next id keeps the ids distinct and below the advanced counter |
| AssetStatusService.ReplaceAssetOnlyThatRow | src/main/java/org/scoula/asset/service/AssetStatusServiceImpl.java:147 | the update rewrites only the row with the id and owner, to the request, and changes no id |
| AssetStatusService.UpdateAssetStatus | src/main/java/org/scoula/asset/service/AssetStatusServiceImpl.java:139-153 | without a row of that id and owner: `AssetNotFoundException` and no change; otherwise the row takes the request and the summary is in sync, or everything rolls back when it fails |
| AssetStatusService.ReplaceKeepsIdsValid | src/main/java/org/scoula/asset/service/AssetStatusServiceImpl.java:147 | rewriting the addressed row keeps the ids distinct and below the counter |
| AssetStatusService.DeleteAssetStatus | src/main/java/org/scoula/asset/service/AssetStatusServiceImpl.java:161-174 | without a row of that id and owner: `NoSuchElementException` and no change; otherwise the row is removed and the summary is in sync, or everything rolls back when it fails |
| AssetStatusService.DeleteRemovesOnlyThatRow | src/main/java/org/scoula/asset/service/AssetStatusServiceImpl.java:165 | after the delete no row of that id and owner is left and every other row is |
| BookingCodes.CodePrefix | src/main/java/org/scoula/booking/service/BookingServiceImpl.java:219-223 | the first twelve characters are the `yyMMdd` date, a `'-'`, `'B'` and the branch id padded to three digits, then `'-'` |
| BookingCodes.BookingCode | src/main/java/org/scoula/booking/service/BookingServiceImpl.java:227-230 | the code is the prefix followed by at least three sequence digits |
| BookingCodes.CodeShape | src/main/java/org/scoula/booking/service/BookingServiceImpl.java:230 | a generated code starts with the booking's date and contains a `'-'`, so the lookup by identifier treats it as a code |
| BookingCodes.CodeLayout | src/main/java/org/scoula/booking/service/BookingServiceImpl.java:223-230 | for branch and sequence below 1000 the code has exactly fifteen characters and its last three read back as the sequence number |
| BookingCodes.CodeDeterminesSequence | src/main/java/org/scoula/booking/service/BookingServiceImpl.java:226-230 | two codes of one branch and day are equal exactly when their sequence numbers are |
| BookingCodes.DayCount | src/main/java/org/scoula/booking/mapper/BookingMapper.java:109 | the day's count never exceeds the number of rows |
| BookingCodes.SequenceAsWritten | src/main/java/org/scoula/booking/service/BookingServiceImpl.java:226 | the daily sequence as written lies between 1 and the number of rows plus one |
| BookingCodes.CodeReusedAfterDelete | src/main/java/org/scoula/booking/service/BookingServiceImpl.java:226-230 | as written, a day whose booking 001 was deleted while 002 stays gives the next booking the code of 002 again |
| BookingCodes.FreshSequenceUnused | src/main/java/org/scoula/booking/service/BookingServiceImpl.java:226-230 | the corrected sequence is at least the one as written, equals it when that code is free, and never yields a code in use |
| BookingDtos.IsoOrNull | src/main/java/org/scoula/booking/dto/BookingDto.java:49-52 | a missing date gives `null`; a present one its `yyyy-MM-dd` text |
| BookingDtos.ListTime | src/main/java/org/scoula/booking/dto/BookingDto.java:55-58 | a time longer than five characters becomes its first five; a `null` or shorter time is kept unchanged |
| BookingDtos.CheckTime | src/main/java/org/scoula/booking/dto/BookingCheckDetailDto.java:35-38 | a time of at least five characters becomes its first five; a `null` or shorter time becomes `null` |
| BookingDtos.TimeRulesCompared | src/main/java/org/scoula/booking/dto/BookingCheckDetailDto.java:35-38 | the two truncation rules agree on every time of five or more characters and disagree on every shorter one |
| BookingDtos.TimeRulesIdempotent | src/main/java/org/scoula/booking/dto/BookingDto.java:55-58 | applying either cut twice is applying it once, and a cut time has at most five characters |
| BookingDtos.Of | src/main/java/org/scoula/booking/dto/BookingDto.java:47-70 | id, code, branch, product and documents are copied unchanged, the date is formatted and the time cut |
| BookingDtos.From | src/main/java/org/scoula/booking/dto/BookingCheckDetailDto.java:29-46 | only id, date, time and branch are filled; id and branch are copied unchanged |
| BookingDtos.ViewsAgree | src/main/java/org/scoula/booking/dto/BookingCheckDetailDto.java:29-46 | both views of a booking show the same id, branch and date, and the same time exactly when the stored time has at least five characters |
| BookingService.ValidateBookingDate | src/main/java/org/scoula/booking/service/BookingServiceImpl.java:438-453 | a missing date, one before today or one after the same day next month is refused with `InvalidBookingDateException`; every other date is accepted |
| BookingService.WindowIsInterval | src/main/java/org/scoula/booking/service/BookingServiceImpl.java:448-451 | today and the same day next month are both accepted, and any date between two accepted dates is accepted |
| BookingService.RequiredDocuments | src/main/java/org/scoula/booking/service/BookingServiceImpl.java:393-431 | the list is never empty, always opens with an identity document, and is the single mandatory identity card exactly when the code is missing or empty |
| BookingService.DocumentCounts | src/main/java/org/scoula/booking/service/BookingServiceImpl.java:403-427 | loan codes ask for seven documents, deposits one, gifts three, inheritance four, and every other code two |
| BookingService.GenerateInitialDocInfo | src/main/java/org/scoula/booking/service/BookingServiceImpl.java:393-431 | appending the documents one by one yields exactly the table's list for the code |
| BookingService.SlotCount | src/main/java/org/scoula/booking/mapper/BookingMapper.java:60-61 | the count is zero exactly when no row holds that branch, date and time |
| BookingService.FindById | src/main/java/org/scoula/booking/mapper/BookingMapper.java:68 | when a position is returned it holds a row with that id; otherwise no row has that id |
| BookingService.FindByIdUnique | src/main/java/org/scoula/booking/mapper/BookingMapper.java:68 | with unique ids the row found is the only row with that id |
| BookingService.FindByCode | src/main/java/org/scoula/booking/mapper/BookingMapper.java:71 | a `selectOne` by code finds nothing exactly when no row has the code, the only row when one has it, and throws `TooManyResultsException` exactly when two rows share it |
| BookingService.DetailOf | src/main/java/org/scoula/booking/dto/BookingDetailResponseDto.java:35-49 | code, time and documents are copied, the date is formatted, and the two looked-up names are passed through |
| BookingService.FindByIdentifier | src/main/java/org/scoula/booking/service/BookingServiceImpl.java:106-113 | an identifier containing `'-'` is matched against codes, and fails when two rows share that code; any other is matched against ids, and a `null` one matches nothing |
| BookingService.GetBookingDetailByIdentifier | src/main/java/org/scoula/booking/service/BookingServiceImpl.java:105-134 | a shared code gives `TooManyResultsException`, no matching row `NoSuchElementException`, another owner's row `UserAccessDeniedException`, and the owner gets the row's detail with the time cut to five characters |
| BookingService.DetailOfStoredBooking | src/main/java/org/scoula/booking/service/BookingServiceImpl.java:105-134 | in a valid table every stored booking is found by its id, and by its code when no other row holds that code; a shared code throws `TooManyResultsException`; the owner gets the detail and anyone else is refused |
| BookingService.GetBookingById | src/main/java/org/scoula/booking/service/BookingServiceImpl.java:77-94 | an unknown id gives `NoSuchElementException`; a known one gives that row's detail with the time cut |
| BookingService.ByIdOfStoredBooking | src/main/java/org/scoula/booking/service/BookingServiceImpl.java:77-94 | in a valid table, looking a stored booking up by its own id gives that booking's detail |
| BookingService.BookingsByEmail | src/main/java/org/scoula/booking/service/BookingServiceImpl.java:63-68 | the list is the view of the user's bookings in table order: it holds the view of every booking of the user and nothing else |
| BookingService.SlotTime | src/main/java/org/scoula/booking/service/BookingServiceImpl.java:156-159 | a time of at least five characters is cut to `HH:mm`; a `null` or shorter time is kept |
| BookingService.SlotTimeIsListTime | src/main/java/org/scoula/booking/service/BookingServiceImpl.java:158 | the slot cut and the list cut agree on every time |
| BookingService.ReservedSlots | src/main/java/org/scoula/booking/service/BookingServiceImpl.java:142-165 | the grouping throws exactly when a future booking of the branch has no date |
| BookingService.ReservedSlotsListEach | src/main/java/org/scoula/booking/service/BookingServiceImpl.java:149-162 | every future booking of the branch is listed under its own date's key, and every key is the date of such a booking |
| BookingService.Admit | src/main/java/org/scoula/booking/service/BookingServiceImpl.java:198-212 | a `null` date text, an unparsable one, a date outside the window and a taken slot are each refused with their own exception, in that order; otherwise the parsed date is admitted |
| BookingService.NewBooking | src/main/java/org/scoula/booking/service/BookingServiceImpl.java:214-237 | the inserted row carries the caller's email, the request's branch, product, date and time, the documents for the product, the new id and the code of the day's count plus one |
| BookingService.NewBookingKeepsValid | src/main/java/org/scoula/booking/service/BookingServiceImpl.java:204-240 | inserting the admitted row keeps ids and occupied slots unique |
| BookingService.ReusedCodeBreaksLookup | src/main/java/org/scoula/booking/service/BookingServiceImpl.java:105-134 | as written, after a delete the next booking of the day can take the code of a stored booking, and the lookup by that code then throws `TooManyResultsException` |
| BookingService.SameRequestTwice | src/main/java/org/scoula/booking/service/BookingServiceImpl.java:204-212 | after a booking with a time is inserted, the same request is refused with `DuplicateBookingException` |
| BookingService.AddBooking | src/main/java/org/scoula/booking/service/BookingServiceImpl.java:197-245 | a refused request leaves the table unchanged and reports the refusal; an admitted one appends exactly the new row and answers with its code and documents |
| BookingService.PatchedRow | src/main/java/org/scoula/booking/service/BookingServiceImpl.java:305-328 | only date and time can change: a given date replaces the old one by its parse, a given time replaces the old one, the only refusals are a bad date, a date outside the window and a duplicate, and an accepted change lands on a slot no row holds |
| BookingService.PatchOutcome | src/main/java/org/scoula/booking/service/BookingServiceImpl.java:295-328 | an unknown id gives `NoSuchElementException`, another owner gives `AccessDeniedException`, and otherwise the outcome is the found row's position and patched value |
| BookingService.EmptyPatchChangesNothing | src/main/java/org/scoula/booking/service/BookingServiceImpl.java:305-319 | a patch with neither date nor time leaves the row as it was and skips the duplicate check |
| BookingService.OwnSlotCountsAsTaken | src/main/java/org/scoula/booking/service/BookingServiceImpl.java:319-327 | re-sending a booking's own time with its date unchanged is refused as a duplicate, because the booking itself is counted |
| BookingService.PatchKeepsValid | src/main/java/org/scoula/booking/service/BookingServiceImpl.java:319-330 | a successful patch keeps ids and occupied slots unique |
| BookingService.PatchBooking | src/main/java/org/scoula/booking/service/BookingServiceImpl.java:292-336 | a refused patch leaves the table unchanged; an accepted one replaces only the found row and answers with its detail |
| BookingService.DeleteBooking | src/main/java/org/scoula/booking/service/BookingServiceImpl.java:349-361 | an unknown id and a non-owner are refused with the table unchanged; the owner's delete removes the rows with that id and keeps every other row in order |
| BookingService.OnlyRowWithId | src/main/java/org/scoula/booking/service/BookingServiceImpl.java:360 | in a valid table no other row carries the id of the `k`-th row |
| BookingService.DeleteSplits | src/main/java/org/scoula/booking/service/BookingServiceImpl.java:360 | deleting by the id of the `k`-th row removes exactly that row |
| BookingService.DeleteRemovesExactlyOne | src/main/java/org/scoula/booking/service/BookingServiceImpl.java:349-361 | after the owner's delete the id is gone, every other booking remains, and the table is one row shorter |
| HomeService.EarliestIndex | src/main/java/org/scoula/View/home/service/HomeService.java:71-72 | `min` over the dates throws exactly when there are two or more bookings and one has no date; an empty list gives none; otherwise the chosen booking's date is not after any other and is strictly before every earlier one, so of equal dates the first wins |
| HomeService.FindNearestBooking | src/main/java/org/scoula/View/home/service/HomeService.java:67-75 | the answer is `null` exactly when the user has no booking |
| HomeService.ListedBookingIsStored | src/main/java/org/scoula/View/home/service/HomeService.java:74 | looking up by id a booking that the user's list shows never fails |
| HomeService.EarliestRowIsEarliest | src/main/java/org/scoula/View/home/service/HomeService.java:71-72 | with real dates of four-digit years, no booking of the user falls on a day before the one `min` picks |
| HomeService.NearestIsEarliest | src/main/java/org/scoula/View/home/service/HomeService.java:67-75 | the nearest booking shown is the detail of one of the user's own bookings, and none of the user's bookings falls on an earlier day |
| HomeService.GetHomeData | src/main/java/org/scoula/View/home/service/HomeService.java:35-65 | without a user only the three fixed recommendations; an unknown user throws; a known one also gets their name and asset and their nearest booking |
| SmsService.Appended | src/main/java/org/scoula/sms/service/SmsServiceImpl.java:109-112 | a `null` string is appended as the text `null`, any other unchanged |
| SmsService.DisplayName | src/main/java/org/scoula/sms/service/SmsServiceImpl.java:103-104 | the greeting uses the user's name unless it is `null` or blank, and the default name otherwise |
| SmsService.DisplayNameIdempotent | src/main/java/org/scoula/sms/service/SmsServiceImpl.java:103-104 | the shown name is never blank, so choosing it again gives the same name |
| SmsService.Lines | src/main/java/org/scoula/sms/service/SmsServiceImpl.java:106-116 | the message has eight pieces, opening with the notice header and closing with the thanks |
| SmsService.Concat | src/main/java/org/scoula/sms/service/SmsServiceImpl.java:118 | the built text starts with the first piece |
| SmsService.ConcatSnoc | src/main/java/org/scoula/sms/service/SmsServiceImpl.java:106-118 | appending one more piece extends the built text by exactly that piece |
| SmsService.ConcatAppend | src/main/java/org/scoula/sms/service/SmsServiceImpl.java:106-118 | building from two runs of pieces is joining the texts built from each |
| SmsService.ConcatSplit | src/main/java/org/scoula/sms/service/SmsServiceImpl.java:106-118 | every piece occurs in the text right after the text of the pieces before it |
| SmsService.CreateReservationMessage | src/main/java/org/scoula/sms/service/SmsServiceImpl.java:99-119 | the builder's result is the eight pieces joined in order |
| SmsService.Build | src/main/java/org/scoula/sms/service/SmsServiceImpl.java:100-119 | appending the pieces one after another to an empty builder yields their concatenation |
| SmsService.MessageLayout | src/main/java/org/scoula/sms/service/SmsServiceImpl.java:103-116 | the message starts with the header, ends with the thanks, and holds the greeting, product, branch and date-time lines in order with their fields unchanged |
| SmsService.PiecesInOrder | src/main/java/org/scoula/sms/service/SmsServiceImpl.java:106-116 | an earlier piece ends before a later piece starts |
| SmsService.SmsResponse.constructor | src/main/java/org/scoula/sms/service/SmsServiceImpl.java:59 | a fresh response reports no success and carries no message, id or error code |
| SmsService.SendSms | src/main/java/org/scoula/sms/service/SmsServiceImpl.java:58-91 | the message goes from the configured number to the request's phone; a send that returns reports success with its id, and one that throws reports failure, the error code and the exception's message |
| JwtFilter.SecurityContext.constructor | src/main/java/org/scoula/security/filter/JwtAuthenticationFilter.java:78 | a fresh security context holds no authentication |
| JwtFilter.BearerToken | src/main/java/org/scoula/security/filter/JwtAuthenticationFilter.java:66-71 | a token is found exactly when the header is present and starts with `"Bearer "`, and the header is that prefix followed by the token |
| JwtFilter.BearerRoundTrip | src/main/java/org/scoula/security/filter/JwtAuthenticationFilter.java:69-71 | the header made of the prefix and a token yields that token, and no other header does |
| JwtFilter.ExactPrefixOnly | src/main/java/org/scoula/security/filter/JwtAuthenticationFilter.java:34 | a lower-case or space-less prefix is refused, and a bare prefix yields the empty token |
| JwtFilter.ValidateToken | src/main/java/org/scoula/security/util/JwtProcessor.java:67-73 | validation throws exactly when the token does not parse, and never answers `false` |
| JwtFilter.GetAuthentication | src/main/java/org/scoula/security/filter/JwtAuthenticationFilter.java:44-51 | the authentication carries the token's subject, no credentials and no authorities |
| JwtFilter.DoFilterInternal | src/main/java/org/scoula/security/filter/JwtAuthenticationFilter.java:60-91 | without a bearer header nothing is recorded and the chain runs; an unparsable token throws before the chain; a parsable one records its authentication and the chain runs |
| KakaoAuth.ExtractEmail | src/main/java/org/scoula/auth/service/KakaoAuthService.java:159-165 | missing user information or a missing account throws `IllegalArgumentException`; otherwise the account's (possibly `null`) email is returned |
| KakaoAuth.Nickname | src/main/java/org/scoula/auth/service/KakaoAuthService.java:263-271 | the properties' nickname wins when present, and any name other than the default comes from the properties or the profile |
| KakaoAuth.NicknamePriority | src/main/java/org/scoula/auth/service/KakaoAuthService.java:264-271 | the profile's nickname is used only when the properties carry none, and the default only when neither carries one |
| KakaoAuth.NewUser | src/main/java/org/scoula/auth/service/KakaoAuthService.java:274-277 | a new user has only the email and nickname set: no tendency, no asset and no points |
| KakaoAuth.FindOrCreate | src/main/java/org/scoula/auth/service/KakaoAuthService.java:248-281 | bad user information is refused, a `null` email cannot be saved, a known email gives the stored user unchanged, and a new email saves and returns a new user with the chosen nickname |
| KakaoAuth.FindOrCreateKeepsUsers | src/main/java/org/scoula/auth/service/KakaoAuthService.java:258-278 | finding or creating keeps every stored user under its own email and alters or removes none |
| KakaoAuth.Reissue | src/main/java/org/scoula/auth/service/KakaoAuthService.java:294-318 | the reissue succeeds exactly when the presented token is the one stored for its subject, and then the subject's stored token is replaced by the new one |
| KakaoAuth.RotationRevokesOld | src/main/java/org/scoula/auth/service/KakaoAuthService.java:308-314 | after a rotation the new token is accepted, the old one (if different) is not, and other emails keep their tokens |
| KakaoAuth.LogoutRevokes | src/main/java/org/scoula/auth/service/KakaoAuthService.java:327-330 | after a logout no token is accepted for that email, and every other email's tokens are accepted as before |
| KakaoAuth.KakaoAuthService.constructor | src/main/java/org/scoula/auth/service/KakaoAuthService.java:88-93 | a fresh service reports neither a new user nor an undefined tendency |
| KakaoAuth.KakaoAuthService.FindOrCreateUser | src/main/java/org/scoula/auth/service/KakaoAuthService.java:248-281 | a refused lookup leaves the user table unchanged; otherwise the table and the result are what `FindOrCreate` gives |
| KakaoAuth.KakaoAuthService.ProcessKakaoLogin | src/main/java/org/scoula/auth/service/KakaoAuthService.java:107-149 | bad user information changes nothing; otherwise the new-user flag says whether the email was unknown, the tendency flag is set only for a returning user without a tendency, the user's refresh token is stored, and both tokens are returned with the user's email and name |
| KakaoAuth.KakaoAuthService.ReissueTokens | src/main/java/org/scoula/auth/service/KakaoAuthService.java:294-318 | a refused reissue leaves the tokens unchanged; an accepted one stores the new refresh token and returns the new pair |
| KakaoAuth.KakaoAuthService.Logout | src/main/java/org/scoula/auth/service/KakaoAuthService.java:327-330 | the email's stored refresh token is removed and nothing else |
| KakaoAuth.LoginTokenReissues | src/main/java/org/scoula/auth/service/KakaoAuthService.java:131-140 | the refresh token a login stores is accepted by the next reissue for that user |
| CodefTokenService.AccessTokenStep | src/main/java/org/scoula/View/codef/service/CodefTokenService.java:54-72 | a present, unexpired token is returned without asking the API; otherwise a published token replaces the cache with expiry `now + expiresIn * 1000`, and no token or no response yields `null` |
| CodefTokenService.HandedOutTokenIsLive | src/main/java/org/scoula/View/codef/service/CodefTokenService.java:56-80 | with a positive lifetime, the token handed out is the cached one and is not expired at that moment |
| CodefTokenService.FetchedTokenIsReused | src/main/java/org/scoula/View/codef/service/CodefTokenService.java:56-80 | after a token is fetched, every call within its lifetime returns that same token and changes nothing, whatever the API would answer |
| CodefTokenService.WithEncryptedPassword | src/main/java/org/scoula/View/codef/service/CodefTokenService.java:93-97 | an account without a password is unchanged; otherwise only its password changes, to the encryption with every newline removed, and a failing encryption throws |
| CodefTokenService.Rewritten | src/main/java/org/scoula/View/codef/service/CodefTokenService.java:92-100 | the rewrite keeps the number of accounts |
| CodefTokenService.RewrittenAccountwise | src/main/java/org/scoula/View/codef/service/CodefTokenService.java:92-100 | when no encryption throws, every account is rewritten on its own and nothing else changes |
| CodefTokenService.RewrittenPasswordsHaveNoNewline | src/main/java/org/scoula/View/codef/service/CodefTokenService.java:94-97 | every rewritten account carries a password without a newline, whether or not the loop finished |
| CodefTokenService.RewriteStopsAt | src/main/java/org/scoula/View/codef/service/CodefTokenService.java:90-111 | the loop stops at the first account whose encryption throws, leaving it and the accounts after it unchanged |
| CodefTokenService.TokenService.constructor | src/main/java/org/scoula/View/codef/service/CodefTokenService.java:35-38 | a fresh service caches no token and an expiry of zero |
| CodefTokenService.TokenService.GetAccessToken | src/main/java/org/scoula/View/codef/service/CodefTokenService.java:54-81 | the cache and the answer are exactly those of one step of the token cache |
| CodefTokenService.TokenService.CreateConnectedId | src/main/java/org/scoula/View/codef/service/CodefTokenService.java:89-112 | the accounts are rewritten in place as the loop leaves them, and the result is the API's answer exactly when every encryption and the call succeed, `null` otherwise |
| CodefTokenService.TokenService.DeleteDeposits | src/main/java/org/scoula/View/codef/service/CodefTokenService.java:137-143 | only the user's deposit rows are deleted; every other row stays; when the user is known and every row of theirs has an amount and a category code, all deposits go and users and recommendations are kept in sync |
| CodefTokenService.TokenService.DeleteOne | src/main/java/org/scoula/View/codef/service/CodefTokenService.java:139-142 | one delete of a deposit row not yet deleted either advances the deletion loop or fails with the tables as the loop left them |
| CodefTokenService.TokenService.AddAccounts | src/main/java/org/scoula/View/codef/service/CodefTokenService.java:154-168 | each reported account whose balance parses takes the next id; with a known user whose rows are all complete every such row is appended, and otherwise every insert is rolled back and the tables stay as they were |
| CodefTokenService.TokenService.SaveAccountInfo | src/main/java/org/scoula/View/codef/service/CodefTokenService.java:122-170 | a missing response or one without `data` throws with nothing deleted; otherwise the user's deposit rows are replaced by one row per parsed reported account, and every other row stays |
| CodefTokenService.DeletedAll | src/main/java/org/scoula/View/codef/service/CodefTokenService.java:138-143 | once every deposit row of the user is deleted, the table is the old one without exactly those rows |
| CodefTokenService.DeleteStep | src/main/java/org/scoula/View/codef/service/CodefTokenService.java:141 | a successful delete of a deposit row not yet deleted advances the deletion loop |
| CodefTokenService.DeleteFails | src/main/java/org/scoula/View/codef/service/CodefTokenService.java:141 | a delete in the loop fails only when the user is unknown or has a row without an amount or a category code |
| CodefTokenService.OthersKept | src/main/java/org/scoula/View/codef/service/CodefTokenService.java:139-141 | deleting one deposit row by id and owner keeps every row that is not a deposit of that owner |
| CodefTokenService.AddSkipped | src/main/java/org/scoula/View/codef/service/CodefTokenService.java:159-167 | an account whose balance does not parse adds nothing |
| CodefTokenService.AddStep | src/main/java/org/scoula/View/codef/service/CodefTokenService.java:155-167 | one insert of a parsed account advances the insertion loop, whether its summary update succeeds or not |
| CodefTokenService.DepositsReplaced | src/main/java/org/scoula/View/codef/service/CodefTokenService.java:137-168 | replacing the deposit rows keeps every other old row and no old deposit row |
| CodefTokenService.DepositStillStored | src/main/java/org/scoula/View/codef/service/CodefTokenService.java:137-139 | a deposit row of the user listed at the start is still stored while only earlier ones have been deleted |
| CodefTokenService.OutsideDepositIds | src/main/java/org/scoula/View/codef/service/CodefTokenService.java:138-143 | deleting the ids of all the user's deposit rows deletes exactly the user's deposit rows |
| CodefTokenService.DepositRequest | src/main/java/org/scoula/View/codef/service/CodefTokenService.java:156-160 | an account yields a request exactly when its balance is present and parses, as a deposit with no business type, the account's name and the parsed amount |
| CodefTokenService.AccountRows | src/main/java/org/scoula/View/codef/service/CodefTokenService.java:154-168 | there are never more added rows than reported accounts |
| CodefTokenService.AccountRowsAreFresh | src/main/java/org/scoula/View/codef/service/CodefTokenService.java:154-168 | every added row is a deposit of the user with a parsed amount and consecutive fresh ids, one per account whose balance parses |
| UserDtos.Of | src/main/java/org/scoula/user/dto/UserDto.java:64-80 | the DTO copies the user's fields, including email and points, and leaves the income range unset |
| UserDtos.ToVo | src/main/java/org/scoula/user/dto/UserDto.java:86-101 | the user built from a DTO keeps its email and has zero points |
| UserDtos.ToVoOfLosesPoint | src/main/java/org/scoula/user/dto/UserDto.java:64-101 | converting a user to a DTO and back loses only the points, so it is the identity exactly for a user with zero points |
| UserDtos.OfToVoLosesPointAndIncome | src/main/java/org/scoula/user/dto/UserDto.java:64-101 | converting a DTO to a user and back loses only the points and the income range |
| UserService.GetUser | src/main/java/org/scoula/user/service/UserServiceImpl.java:72-76 | a stored email gives its user as a DTO, points included; an unknown one gives `NoSuchElementException` |
| UserService.WithDtoFields | src/main/java/org/scoula/user/service/UserServiceImpl.java:103-113 | the written-back user is the DTO's user with the stored email and points kept |
| UserService.WriteBackOwnDto | src/main/java/org/scoula/user/service/UserServiceImpl.java:348-350 | writing a user's own DTO back with the asset (or tendency, or asset and proportion) changed changes only those fields |
| UserService.UpdateUser | src/main/java/org/scoula/user/service/UserServiceImpl.java:99-116 | an unknown email throws with nothing written; a known one gets the DTO's ten editable fields, and every other user is unchanged |
| UserService.UpdateUserInfo | src/main/java/org/scoula/user/service/UserServiceImpl.java:144-156 | an unknown email throws `UserNotFoundException`; a known one changes only name, phone and birth date |
| UserService.BranchInfo | src/main/java/org/scoula/user/service/UserServiceImpl.java:179-204 | an unknown user and a branch id without a branch each throw their own exception; no preferred branch gives `null`; otherwise the branch's name |
| UserService.UpdateBranchId | src/main/java/org/scoula/user/service/UserServiceImpl.java:215-227 | an unknown branch throws with nothing written; otherwise the user's branch is set, and an unknown email updates no row |
| UserService.WithdrawUser | src/main/java/org/scoula/user/service/UserServiceImpl.java:238-250 | an unknown user throws and, the transaction rolling back, every table is unchanged; a known user loses the user row, the refresh token and every booking, asset row, recommendation and recipient of theirs, and nothing else |
| UserService.WithdrawnUserLeavesNoRows | src/main/java/org/scoula/user/service/UserServiceImpl.java:240-246 | after a withdrawal none of the booking, asset, recommendation and recipient tables holds a row of the user |
| UserService.RoundHalfUpDiv | src/main/java/org/scoula/user/service/UserServiceImpl.java:334-336 | the quotient is rounded to the nearest integer with halves rounded up |
| UserService.RoundHalfUpMonotone | src/main/java/org/scoula/user/service/UserServiceImpl.java:334-336 | rounding half up never makes a larger numerator give a smaller quotient |
| UserService.AssetPercentile | src/main/java/org/scoula/user/service/UserServiceImpl.java:312-337 | no asset gives `null`; one or no user with an asset gives 100.0 |
| UserService.PercentileOfStoredUserAtMost100 | src/main/java/org/scoula/user/service/UserServiceImpl.java:318-336 | a stored user's own asset has a percentile of at most 100.0 |
| UserService.PercentileMonotone | src/main/java/org/scoula/user/service/UserServiceImpl.java:326-336 | a larger asset never has a larger percentile |
| UserService.UpdateUserAsset | src/main/java/org/scoula/user/service/UserServiceImpl.java:347-351 | an unknown user and a `null` asset each throw with nothing written; otherwise only the user's asset grows by the amount |
| PreferenceService.MapScore | src/main/java/org/scoula/View/preference/service/PreferenceServiceImpl.java:51-59 | every score lies in [-0.3, 0.3]; an out-of-range answer scores 0; the first answer scores +0.3 and the last -0.3 |
| PreferenceService.MapScoreDecreasing | src/main/java/org/scoula/View/preference/service/PreferenceServiceImpl.java:57-58 | on one scale a later answer never scores higher than an earlier one |
| PreferenceService.SurveyTotal | src/main/java/org/scoula/View/preference/service/PreferenceServiceImpl.java:29-34 | the five scores on the scales 3, 2, 3, 3, 2 sum to a value in [-1.5, 1.5] |
| PreferenceService.Clamp | src/main/java/org/scoula/View/preference/service/PreferenceServiceImpl.java:37-38 | the corrected value lies in [-1, 1], values inside are kept, and values outside become the nearer bound |
| PreferenceService.TendencyExtremes | src/main/java/org/scoula/View/preference/service/PreferenceServiceImpl.java:29-38 | answering the first option everywhere gives tendency 1, the last option everywhere gives -1, and no valid answer gives 0 |
| PreferenceService.TendencyMonotoneInFirstAnswer | src/main/java/org/scoula/View/preference/service/PreferenceServiceImpl.java:30-38 | moving the first answer to a later option never raises the tendency |
| PreferenceService.ScoreSurvey | src/main/java/org/scoula/View/preference/service/PreferenceServiceImpl.java:29-38 | the five additions and the two corrections give the clamped survey total, which lies in [-1, 1] |
| PreferenceService.SetUserPreference | src/main/java/org/scoula/View/preference/service/PreferenceServiceImpl.java:28-43 | an unknown user throws with nothing written; otherwise only the user's tendency changes, to the survey's score, and the user's recommendations are rebuilt from the updated user |
| CustomRecommendService.GetCustomRecommendsByEmail | src/main/java/org/scoula/recommend/service/CustomRecommendServiceImpl.java:28-39 | a user without stored rows gets the two placeholder recommendations; otherwise one DTO per stored row of the user, in order, with its code and score |
| CustomRecommendService.Candidates | src/main/java/org/scoula/recommend/service/CustomRecommendServiceImpl.java:73-84 | there is never more than one candidate per product |
| CustomRecommendService.CandidatesFromCatalogue | src/main/java/org/scoula/recommend/service/CustomRecommendServiceImpl.java:73-84 | every candidate belongs to the user and carries the code of a product in the catalogue |
| CustomRecommendService.TopCandidatesAreBest | src/main/java/org/scoula/recommend/service/CustomRecommendServiceImpl.java:87-98 | at most eight candidates are kept, all taken from the candidates, in descending score order, and none left out scores above one kept |
| CustomRecommendService.RecommendationsBelongToUser | src/main/java/org/scoula/recommend/service/CustomRecommendServiceImpl.java:83-98 | every inserted row belongs to the user, and there are at most eight |
| CustomRecommendService.RefreshKeepsOtherUsers | src/main/java/org/scoula/recommend/service/CustomRecommendServiceImpl.java:64-98 | rebuilding one user's recommendations leaves every other user's rows as they were |
| CustomRecommendService.RefreshReplacesUserRows | src/main/java/org/scoula/recommend/service/CustomRecommendServiceImpl.java:64-98 | after a rebuild over a non-empty catalogue the user's rows are exactly the new ones, at most eight |
| CustomRecommendService.RefreshTwice | src/main/java/org/scoula/recommend/service/CustomRecommendServiceImpl.java:64-98 | two rebuilds for the same user leave what the second alone would |
| CustomRecommendService.ScoreProducts | src/main/java/org/scoula/recommend/service/CustomRecommendServiceImpl.java:73-84 | the loop skips the products without a code and scores the rest in catalogue order, as the candidate list says |
| CustomRecommendService.AddCustomRecommend | src/main/java/org/scoula/recommend/service/CustomRecommendServiceImpl.java:50-99 | an unknown user throws and an empty catalogue returns early, both with the table unchanged; otherwise the user's old rows are deleted and the best eight new rows are appended |
| CustomRecommendService.InsertFirst | src/main/java/org/scoula/recommend/service/CustomRecommendServiceImpl.java:96-98 | the first `count` sorted rows are appended to the table in order |
| Dates.DaysInMonth | src/main/java/org/scoula/booking/service/BookingServiceImpl.java:448 | every month has 28 to 31 days, and February has 29 exactly in a leap year |
| Dates.PlusOneMonth | src/main/java/org/scoula/booking/service/BookingServiceImpl.java:448 | one month later is a valid, strictly later date whose day is kept unless the next month is too short, in which case it is that month's last day |
| Dates.PeriodYearsCompleted | src/main/java/org/scoula/gift/service/SimulationServiceImpl.java:403-408 | for an end not before the start, the years counted are the completed anniversaries |
| Dates.PeriodYearsBackwards | src/main/java/org/scoula/gift/service/SimulationServiceImpl.java:403-408 | an end before the start counts no completed year |
| Dates.FormatIso | src/main/java/org/scoula/booking/dto/BookingDto.java:51 | a date of a four-digit year formats to ten characters with `'-'` at positions 4 and 7 |
| Dates.FormatYyMMdd | src/main/java/org/scoula/booking/service/BookingServiceImpl.java:219 | the short date is always six characters |
| Dates.IsoOrder | src/main/java/org/scoula/View/home/service/HomeService.java:71-72 | for four-digit years, comparing `yyyy-MM-dd` strings orders the dates as the calendar does |
| Dates.IsoInjective | src/main/java/org/scoula/View/home/service/HomeService.java:71-72 | for four-digit years, two dates format alike exactly when they are equal |
| JavaText.Trim | src/main/java/org/scoula/sms/service/SmsServiceImpl.java:103 | the trimmed text is a slice that neither starts nor ends with a character at or below U+0020, and it is empty exactly when the text is blank |
| JavaText.RemoveChar | src/main/java/org/scoula/View/codef/service/CodefTokenService.java:96 | the result holds no occurrence of the removed character (the newline, here) and keeps every other character |
| JavaText.Format03d | src/main/java/org/scoula/booking/service/BookingServiceImpl.java:223-227 | `%03d` gives at least three characters, exactly three below 1000 |
| JavaText.Format03dValue | src/main/java/org/scoula/booking/service/BookingServiceImpl.java:223-227 | `%03d` of a non-negative number reads back as that number, so two such numbers format alike only when equal |
| Sorting.SortBy | src/main/java/org/scoula/recommend/service/CustomRecommendServiceImpl.java:87-93 | sorting keeps the length and the multiset of elements |
| Sorting.SortBySorted | src/main/java/org/scoula/recommend/service/CustomRecommendServiceImpl.java:87-93 | the sorted list is ordered by rank |
| Sorting.TopIsBest | src/main/java/org/scoula/recommend/service/CustomRecommendServiceImpl.java:87-98 | the first `n` sorted elements come in rank order, are taken from the input, and none left out ranks before one taken |
| Sorting.InsertKeepsTies | src/main/java/org/scoula/recommend/service/CustomRecommendServiceImpl.java:87-93 | inserting an element into a sorted list puts it after every element of its rank |
| Sorting.SortByStable | src/main/java/org/scoula/recommend/service/CustomRecommendServiceImpl.java:87-93 | the sort is stable: the elements of each rank keep their input order |

## Left out

- Floating point: cosine similarity is a parameter that returns an uninterpreted score. The RAG version's missing zero-norm guard (NaN) is therefore not modelled.
- Floating point: weights, ratios and the `(long)(x * rate)` casts are exact reals and integers. IEEE rounding and `long` overflow are not modelled.
- Concurrency: `CompletableFuture` chains, the `ragTaskExecutor` pool, `@Async`, `ConcurrentHashMap` and `AtomicBoolean` are all modelled as sequential steps. The caller-side timeout on an answer is not modelled.
- Concurrency: the Kakao login flags are singleton fields shared between requests. They are modelled for one request at a time.
- PDF loading (PDFBox), the markdown dump file and `ResourceLoader` are outside the model. The parser starts from the positioned text blocks.
- The OpenAI embedding and completion calls are parameters. The same holds for Kakao's token and user-info exchanges, the CODEF API client with its RSA encryption, the CoolSMS `sendOne`, Jsoup fetching, `JwtProcessor` signing and claims, and ULID generation.
- `SecurityContextHolder`'s thread-local context is modelled as one object passed to the filter.
- The mapper SQL is not part of this model. Each table is a sequence or map whose reads and writes follow the mappers' names and doc comments. Mapper list order is taken to be table order; for example, `countByBranchAndDate` counts the rows of that branch and day.
- RecipientService: `updateRecipient`'s SQL is taken to match the row by its id.
- The gift-page categories are a map. The `HashMap` iteration order of the page is not modelled.
- NewsService: the `Map.of` iteration order over the six categories is taken to be 1 to 6.
- NewsService: the category-4 filter regex is a parameter. The `IOException` of a crawl is raised only by the fetch. `insertNews` appends to the table.
- The asset sum and the weighted sum are exact. `Long` overflow of huge amounts is not modelled.
- The asset table's auto-increment counter is not rolled back when a transaction fails. The model follows this: the counter stays advanced.
- UserService.WithdrawUser: for an unknown user the source deletes the related rows, then throws, and the transaction rollback restores them. The model returns the unchanged tables directly.
- BookingService: `clickLog` only writes a log and is not modelled.
- BookingService: `sendBookingToBank` (the bank server client) is not modelled.
- BookingService: `deletePastBookings` is not modelled. This covers its SQL and its call inside `getBookingsByEmail`. `BookingsByEmail` lists all the user's rows.
- BookingService: `checkBookingExists` is only modelled through `BookingCheckDetailDto.from`.
- BookingService: `findFutureByBranch` is a predicate parameter applied to the table.
- BookingService.PatchBooking: its slot check counts the booking itself (`OwnSlotCountsAsTaken`). That is the source's behaviour and is modelled as such.
- CodefTokenService: each delete and insert in `saveAccountInfo` is its own transaction in the asset service. `saveAccountInfo` as a whole is therefore not rolled back, and the model states what the tables hold at the step where it fails.
- NewsService: a stored news row whose title is `null` makes `existing.getTitle().equals(title)` throw `NullPointerException` (`NewsServiceImpl.java:117`). Titles in the model are strings and are never `null`, so this path is not modelled.
- CodefTokenService: a token response that has `access_token` but no `expires_in` makes the `(Integer)` unboxing throw `NullPointerException` (`CodefTokenService.java:62`). `TokenResponse` always carries an expiry, so this path is not modelled.
- CodefTokenService: a response whose `data` key maps to `null` passes the `containsKey` check and then throws `NullPointerException` at `data.get` (`CodefTokenService.java:132-133`). The model reads `data` as present or absent, so this path is not modelled.
- SmsService: a `null` answer of `sendOne` makes `sentResponse.getMessageId()` throw inside the `try` (`SmsServiceImpl.java:73-78`), with assertions off. The catch then reports a failure. `sendOne` is a parameter that always answers a response or an exception, so this path is not modelled.
- ChunkText: only `'\n'` ends a line. Java's `MULTILINE` patterns also end lines at `'\r'`, `U+0085`, `U+2028` and `U+2029`; text with those is not modelled faithfully.
- Strings are sequences of Unicode scalar values, while Java's `length()` counts UTF-16 code units. For text outside the Basic Multilingual Plane, lengths checked against the 10,000-character limit and `substring` positions therefore differ from Java's.
- Logging and the debug output of every service are left out.
- The controllers and the security, web and Swagger configuration are left out: they only convert requests, answers and errors.
- The thin services are left out: category, branch, FAQ, statistics, event, question and retirement. So are the schedulers, which only delegate to unseen SQL.
- ChunkText.StripRunningHeads: states only that the text does not grow. The line patterns are in the body.
- ChunkText.StripPageNumbers: states only that the text does not grow.
- ChunkText.CollapseBlankLines: states only that the text does not grow, and the no-change lemmas beside it.
- RagService.Context: states only the empty-store case and that the context is built from retrieved chunks.
- GiftStrategy.ValuesInOrder: states only the length of the result.
- CustomRecommendService.Candidates: states only the length bound. What the candidates are is stated in `CandidatesFromCatalogue`.

## Findings

| source | as written | input that shows it | evidently intended | confidence | as-written member | corrected member |
|---|---|---|---|---|---|---|
| src/main/java/org/scoula/asset/service/AssetStatusServiceImpl.java:36-66 | the weights are a `Map.of` map, read with `getOrDefault(code, 0.0)`; `Map.of` maps throw `NullPointerException` for a `null` key | an asset row whose category code is `null` makes the summary recomputation throw | a missing category weighs 0, as the default says | not executed | AssetStatusService.NullCategoryCodeThrows | AssetStatusService.AssetWeight |
| src/main/java/org/scoula/gpt/service/GptServiceImpl.java:400-425 | an oversized section is re-packed by paragraphs, but a single paragraph longer than the limit is appended and closed without any cut | a section of a short `## ` title and one paragraph of 10,000 letters yields one chunk longer than 10,000 characters | no chunk exceeds `MAX_CHUNK_CHAR_LIMIT` | not executed | Chunker.LongParagraphOverflows | Chunker.SectionChunksWithinLimit |
| src/main/java/org/scoula/booking/service/BookingServiceImpl.java:226-230 | the daily sequence is the number of the day's bookings plus one | a branch and day with bookings 001 and 002, after 001 is deleted: the next booking is given code …-002 again | a booking code not already in use | not executed | BookingCodes.CodeReusedAfterDelete | BookingCodes.FreshSequenceUnused |

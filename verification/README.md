# Camos AI Assistant — a Dafny model of its core

The Camos AI Assistant is a Streamlit application. It answers questions about
Camos programming from a retrieval-augmented pipeline: PDF manuals are chunked
into a FAISS index, and a local Ollama model answers over that index. It also
offers a debugging prompt and a community Q&A board kept in two spreadsheets.
This project models four parts of it and proves properties of the model:

- **Ingestion** (`ingest.dfy`, from `src/data_ingestor.py`). For each PDF it
  builds the OCR records of the embedded images and then the table records, in
  page-then-image order and then table order. An exception cuts the extraction
  short but keeps the records built so far. The PDFs of a directory are
  ingested so that a failing file contributes nothing and the others are
  unaffected. The two vector-store functions are guarded: no documents means
  no index is written, and a missing directory loads as nothing.
- **The pipeline** (`rag.dfy`, from `src/rag_pipeline.py` and the cached
  construction in `app.py`). It has a readiness chain: vector store, then
  retriever (top 5), then QA chain. `query_rag` answers with a fixed message
  and never reaches a component when no store was loaded. `debug_code` fills
  the debug template with `str.format` and calls only the language model.
  Both turn a component's exception into a message that names the model.
- **The Q&A board** (`board.dfy`, from `app.py`). It covers:
  - the rule that only users with 3+ years of experience may answer;
  - the case-insensitive FAQ search;
  - submitting a question, which puts it in front of the pending questions;
  - answering, which puts a new FAQ in front and drops the pending question.

  In the model, a store changes only when its own save succeeds.
- **The session** (`session.dfy`, from `app.py`). It covers login, logout and
  the chat tab. The chat tab sends a prompt that mentions both "error" and
  "code" to `debug_code`, with two fixed placeholders rather than the prompt.
  Any other prompt goes to `query_rag`. The exchange is logged after the
  greeting.

Supporting modules: `outcomes.dfy` has `Option` and `Outcome`; a Python
exception is `Raised(message)`. `pytext.dfy` has the Python string and path
operations the code relies on: `strip`, `lower`, `in`, `endswith`, `str(n)`,
`int(s)`, `os.path.join` and `os.path.basename`. Its `StartsWith` is not
used by the code; the contracts use it to state what a text begins with.
`template.dfy` has `str.format` with named fields.

External components are inputs of arrow type, or datatypes describing what they
report:
- the Ollama model and the `RetrievalQA` chain;
- the text splitter and the embedding model;
- PyMuPDF, Tesseract and Camelot;
- the directory listing;
- whether each spreadsheet save succeeds;
- the clock.

Each reply records which components it called, so "not called" can be stated.

When `fitz.open` raises, the handler in `extract_additional_content_from_pdf`
reads `filename_base` before that name is bound. So the extraction raises, and
the whole file is skipped, page text included. The model follows the code
here (`Ingest.AdditionalContent`, `Ingest.UnopenableFileSkipped`).

## Model

| member | source | states |
|---|---|---|
| PyText.Strip | src/data_ingestor.py:52 | `strip()` leaves no whitespace at either end, and the result is empty exactly when the text is blank |
| PyText.StripPadding | app.py:245 | stripping a trimmed text padded with whitespace gives exactly that text back |
| PyText.StripIdempotent | app.py:279 | stripping twice is stripping once |
| PyText.TrimStartSkips | src/data_ingestor.py:52 | leading whitespace in front of a text that does not start with whitespace is exactly what is removed |
| PyText.TrimEndSkips | src/data_ingestor.py:52 | trailing whitespace after a text that does not end with whitespace is exactly what is removed |
| PyText.LowerIdempotent | app.py:187 | lower-casing twice is lower-casing once |
| PyText.LowerConcat | app.py:187 | the model's ASCII lower-casing distributes over concatenation (Python's full `str.lower` does not, e.g. for a final sigma) |
| PyText.Contains | app.py:187 | `sub in s` holds only when `sub` is no longer than `s` |
| PyText.ContainsIff | app.py:187 | `sub in s` holds exactly when `sub` occurs at some position of `s` |
| PyText.ContainsExtend | app.py:187 | a substring stays a substring whatever text is added around it |
| PyText.NatToString | app.py:244 | `str(n)` is a non-empty run of digits with no leading zero |
| PyText.ParseNat | src/data_ingestor.py:66 | `int(s)` succeeds exactly on digit strings |
| PyText.ParseNatToString | src/data_ingestor.py:66 | `int(str(n)) == n` |
| PyText.Basename | src/data_ingestor.py:37 | the base name has no '/' and ends the path |
| PyText.BasenameAppend | src/data_ingestor.py:37 | the base name of a directory path followed by a name is that name |
| PyText.BasenameJoin | src/data_ingestor.py:86 | `basename(join(dir, name))` is `name` for a directory entry |
| Templates.Format | src/rag_pipeline.py:92-95 | `t.format(**fields)`: a template without braces formats to itself, and formatting raises only when the template has a brace |
| Templates.IndexOf | src/rag_pipeline.py:92-95 | the position found is the first occurrence of the character, and `None` means it does not occur |
| Templates.FormatEscape | src/rag_pipeline.py:92-95 | a template without fields, its braces doubled, formats to its literal text |
| Templates.FormatAfterLiteral | src/rag_pipeline.py:92-95 | escaped literal text in front is reproduced in front of the formatted rest |
| Templates.FormatFieldHead | src/rag_pipeline.py:92-95 | for a plain name (one holding an ASCII letter or `_`, so not an index in any script, and with no conversion, format specification, attribute or element part), a leading `{name}` is replaced by its value, and a name without a value raises |
| Templates.FormatFieldThen | src/rag_pipeline.py:92-95 | a plain-name field after literal text is replaced in place and formatting continues |
| Templates.FormatMissingField | src/rag_pipeline.py:92-95 | a plain-name field whose name has no value makes `format` raise |
| Templates.FormatField | src/rag_pipeline.py:92-95 | one plain-name field between literal texts: replaced by its value, or raise when the name has none |
| Templates.FormatTwoFields | src/rag_pipeline.py:92-95 | two plain-name fields between literal texts are both replaced, in place |
| Ingest.ImageYieldsRecordIff | src/data_ingestor.py:50-56 | an image yields at most one record, and one exactly when its extension is png/jpeg/jpg and its OCR text is not blank |
| Ingest.OcrFailureYieldsNoRecord | src/data_ingestor.py:19-27 | an image whose OCR raised yields no record |
| Ingest.ImageRecordShape | src/data_ingestor.py:53-56 | an image's record has type image_ocr, the file's base name, page and image numbers counted from 1, and the page number in its text |
| Ingest.OcrOrderedConcat | src/data_ingestor.py:40-56 | two ordered runs of OCR records, the first entirely before the second, form an ordered run |
| Ingest.ImagesScanRecords | src/data_ingestor.py:44-56 | a page's records are OCR records of that page, in increasing image order |
| Ingest.PagesScanRecords | src/data_ingestor.py:40-56 | all OCR records are ordered by page and then by image, with pages within range |
| Ingest.ImagesScanStep | src/data_ingestor.py:44-56 | an extractable image adds exactly its records to its page's scan |
| Ingest.PagesScanStep | src/data_ingestor.py:40-56 | a readable page adds its images' records and passes on whether they could all be extracted |
| Ingest.ImagesScanStops | src/data_ingestor.py:44-48 | after an image raised, the rest of the images add nothing |
| Ingest.PagesScanStops | src/data_ingestor.py:40-42 | after a page raised, the rest of the pages add nothing |
| Ingest.ImagesScanUnreadable | src/data_ingestor.py:44-48 | an image that cannot be extracted ends its page's scan with a failure and the records gathered before it |
| Ingest.PagesScanUnreadable | src/data_ingestor.py:40-42 | a page that cannot be read ends the OCR scan with a failure and the records gathered before it |
| Ingest.PagesScanGrows | src/data_ingestor.py:53 | records appended before an exception are kept: the scan of fewer pages is a prefix of the scan of more |
| Ingest.TablesScanRecords | src/data_ingestor.py:60-67 | the table records are those of every table up to the first that raised, numbered from 1, in order, and the scan is complete exactly when none raised |
| Ingest.TableRecordContents | src/data_ingestor.py:62-66 | a table record has type table_data, the base name, the table number from 1, the page label read as an integer, and the header |
| Ingest.TablePageRoundTrip | src/data_ingestor.py:62-66 | a page label written in decimal without leading zeros becomes the record's page |
| Ingest.TablesScanFailsAt | src/data_ingestor.py:63-66 | a table whose rendering or page label raises ends the table scan with the records so far |
| Ingest.TablesScanSucceedsAt | src/data_ingestor.py:60-67 | a table whose record can be built adds exactly that record |
| Ingest.TablesScanStops | src/data_ingestor.py:60-67 | after a table raised, the rest of the tables add nothing |
| Ingest.AdditionalContentLayout | src/data_ingestor.py:29-72 | every extracted record carries the file's base name and is an OCR or table record, and no OCR record follows a table record |
| Ingest.OcrImage | src/data_ingestor.py:50-56 | the loop body yields the image's records |
| Ingest.OcrPage | src/data_ingestor.py:44-56 | the image loop of one page computes that page's scan |
| Ingest.OcrFromImages | src/data_ingestor.py:40-56 | the page loop computes the OCR scan of the document |
| Ingest.TableRecords | src/data_ingestor.py:59-67 | the table loop computes the table scan |
| Ingest.AdditionalContent | src/data_ingestor.py:29-72 | the extraction raises exactly for a PDF that cannot be opened, with the unbound-name error; otherwise the OCR records of all pages come first |
| Ingest.ExtractAdditionalContentFromPdf | src/data_ingestor.py:29-72 | the method returns exactly the specified extraction: OCR records, then table records, cut at the first exception, and it raises only for a PDF that cannot be opened |
| Ingest.PdfPaths | src/data_ingestor.py:86 | there are no more paths than entries, and each path is the directory joined with an entry whose name ends in ".pdf" |
| Ingest.FileChunks | src/data_ingestor.py:89-99 | a file whose text loading or extraction raises raises; chunks are the split of the page documents followed by the extracted records |
| Ingest.Contribution | src/data_ingestor.py:88-103 | a file contributes either nothing or exactly its complete chunk list, and nothing when its processing raised |
| Ingest.Ingested | src/data_ingestor.py:88-105 | every chunk in the result comes from the contribution of one of the listed files |
| Ingest.LoadAndProcessCamosDocs | src/data_ingestor.py:74-105 | a text splitter whose construction raises makes the whole call raise, before the listing; then a failing directory listing raises, and otherwise the result is the chunks of every listed PDF, in listing order |
| Ingest.IngestedConcat | src/data_ingestor.py:88-100 | ingesting a list of files in two parts gives the two results, in order |
| Ingest.FileContributesAll | src/data_ingestor.py:88-100 | a file that loads, extracts and splits contributes all of its chunks, at its place |
| Ingest.FailingFileSkipped | src/data_ingestor.py:102-103 | a file whose processing raised contributes nothing, and the others contribute what they would without it |
| Ingest.UnopenableFileSkipped | src/data_ingestor.py:36-37 | a PDF that cannot be opened is skipped whole, its page text included |
| Ingest.PdfPathsConcat | src/data_ingestor.py:86 | the PDF paths of a listing in two parts are the paths of each part, in order |
| Ingest.PdfPathsFilter | src/data_ingestor.py:86 | an entry not ending in ".pdf" is ignored, and a PDF entry adds its joined path at its place |
| Ingest.SourceIsEntryName | src/data_ingestor.py:37 | the records built for a listed entry carry the entry's name as their source |
| Ingest.SaveLocal | src/data_ingestor.py:123 | `save_local` leaves a directory holding the index, "index.faiss", "index.pkl" and every file it held before |
| Ingest.CreateAndSaveVectorStore | src/data_ingestor.py:107-125 | no documents gives `None` and writes nothing; otherwise the call succeeds exactly when embedding and saving do, a returned index is the embedded one and is saved in the directory, and a raising call leaves the directory unchanged |
| Ingest.LoadVectorStore | src/data_ingestor.py:127-144 | a missing path loads as `None` before any embedding model is built; loading an existing path raises exactly when building the embedding model raises (with that exception) or no index was saved there; a loaded index is the one saved there |
| Ingest.EmptyDocumentsNoIndex | src/data_ingestor.py:111-113 | no documents: no index, nothing written, and neither the embedding model nor the save is consulted |
| Ingest.SaveThenLoad | src/data_ingestor.py:122-123 | when embedding and saving succeed, the index saved is the index loaded back and the directory is then not empty; if building the embedding model for the load raises, the load raises that exception; a failed embedding or a failed `save_local` raises that exception and writes nothing |
| Rag.LoadOrRecreateVectorStore | src/rag_pipeline.py:46-58 | an absent or empty directory gives no store; loading raises exactly when the directory is not empty and either the embedding model cannot be built or no index was saved; a loaded store is the saved index |
| Rag.InitializeQaChain | src/rag_pipeline.py:60-75 | there is a chain exactly when there is a retriever, and it is built over that retriever with the RAG prompt |
| Rag.Pipeline.constructor | src/rag_pipeline.py:34-43 | the store is the loaded one, there is a top-5 retriever exactly when a store was loaded, and a chain exactly when there is a retriever |
| Rag.Pipeline.QueryRag | src/rag_pipeline.py:77-87 | with no chain: the not-ready message and no call; otherwise one chain call, whose answer is returned, or whose exception becomes "An error occurred during AI processing: " followed by the exception text and the server hint naming the model |
| Rag.Pipeline.DebugCode | src/rag_pipeline.py:89-100 | raises exactly when formatting the template raises; otherwise makes exactly one model call with the formatted prompt and never touches the chain, and a model exception becomes "An error occurred during code debugging: " followed by the exception text and the server hint |
| Rag.InitializeRagPipeline | app.py:64-71 | the result is `None` exactly when loading the vector store raised; otherwise a valid pipeline over the loaded store |
| Rag.StoreLoadedOnlyFromSavedIndex | src/rag_pipeline.py:46-58 | a store is loaded exactly when the directory exists, is not empty and holds a saved index, and the embedding model can be built; it is then that index |
| Rag.IngestedIndexIsLoaded | src/rag_pipeline.py:49-55 | after a successful ingestion the pipeline loads exactly the index that was saved, unless building the embedding model for the load raises, and then the load raises that exception |
| Rag.ReadyIffStoreLoaded | src/rag_pipeline.py:35-43 | a valid pipeline has a chain exactly when a store was loaded; without one its queries reach no component |
| Rag.DebugPromptFilled | src/rag_pipeline.py:92-97 | a debug template `pre{code_snippet}mid{error_message}post` sends the snippet and the message, in place, to the model and nothing else |
| Rag.DebugTemplateUnknownField | src/rag_pipeline.py:92-95 | a debug template naming any other plain-name field makes `debug_code` raise |
| Board.CanAnswer | app.py:115 | a user who may answer has user data and one of the offered levels other than "0-2yr" |
| Board.CanAnswerIff | app.py:114-115 | among the offered levels, exactly "0-2yr" may not answer, and neither may a session without user data |
| Board.Matching | app.py:216-220 | the search result is no longer than the FAQ list |
| Board.MatchingMembers | app.py:216-220 | an FAQ is listed exactly when it is one of the FAQs and its question or answer contains the query, ignoring case |
| Board.MatchingConcat | app.py:216-220 | the search keeps the FAQs' order: searching two parts gives the two results in order |
| Board.MatchingIdempotent | app.py:216-220 | every listed FAQ matches, and searching the result again changes nothing |
| Board.MatchingIgnoresCase | app.py:218-219 | a lower-cased query lists the same FAQs |
| Board.MissingNeverMatches | app.py:218-219 | an FAQ with missing question and answer cells never matches |
| Board.Search | app.py:216-222 | an empty query lists every FAQ |
| Board.DropKeepsOthers | app.py:287 | dropping the answered question keeps every other entry, in order, and removes exactly one occurrence |
| Board.SaveError | app.py:54-61 | a save shows an error notice exactly when it failed, and only error notices |
| Board.QaBoard.constructor | app.py:35-36 | the board holds the stores as loaded and saves FAQs to the configured `excel_faq_file`, or to "data/faqs.xlsx" when none is configured |
| Board.QaBoard.SubmitQuestion | app.py:238-254 | an empty question is refused; otherwise the stripped question with its new id, time and asker goes in front of the pending questions when the save succeeds, and the FAQs never change |
| Board.QaBoard.AnswerQuestion | app.py:265-295 | only a user with 3+ years may answer, and an empty answer is refused; otherwise the new FAQ goes in front when its save succeeds, the question is dropped from the pending list when that save succeeds, and success is announced after any save errors, which name the configured FAQ file and the pending-questions file |
| Session.ChatReply | app.py:185-207 | without a pipeline, the fixed not-ready reply and no call; a debugging prompt gets `debug_code`'s reply on the two placeholders, or the apology with no further call when it raises; any other prompt gets `query_rag`'s reply, reaching exactly the chain if there is one; at most one call |
| Session.IsDebugPrompt | app.py:187 | a debugging prompt is at least as long as "error" |
| Session.DebugPromptIff | app.py:187 | a prompt is a debugging prompt exactly when its lower-cased text contains "error" and "code" |
| Session.DebugPromptIgnoresCase | app.py:187 | the routing ignores case |
| Session.DebugPromptExtended | app.py:187 | a debugging prompt stays one whatever text surrounds it |
| Session.DebugReplyIgnoresPrompt | app.py:188-191 | every debugging prompt gets the same reply: the prompt itself never reaches the model |
| Session.NotReadyChatReply | app.py:193 | with a pipeline that has no chain, any other prompt gets the not-ready message |
| Session.ChatSession.constructor | app.py:110-111 | a new session has no user and no chat log |
| Session.ChatSession.Login | app.py:117-138 | a name and an email log the user in with the chosen level and the id "email_nanos"; otherwise the session is unchanged and an error is shown |
| Session.ChatSession.Logout | app.py:144 | logging out clears the user and the chat log |
| Session.ChatSession.HandleChatInput | app.py:172-207 | the log starts with the greeting, and a non-empty prompt appends the user's message and then exactly one reply |

## Left out

- Streamlit rendering, `st.rerun`, `st.cache_resource`, the sidebar status texts, the chat handler's `st.error` text and the "RAG Pipeline is not initialized" error are not modelled. The notices of the Q&A forms and of login, including the "Error saving to …" text of `save_data_to_excel`, are modelled. `time.sleep` is not modelled.
- The ingestion button (`ingest_camos_data_to_faiss`, app.py:76-105) is not modelled; the two functions it chains are.
- `src/utils.py` (`load_config`, `load_prompt_templates`) is not part of this model. The templates are given in the configuration, so a missing template key is not modelled.
- PyMuPDF, Tesseract, Camelot, the text splitter, the embedding model, FAISS, Ollama and `RetrievalQA` are opaque. Their results are inputs. No property of chunk sizes, overlap, embeddings or retrieval ranking is stated.
- Rag.InitializeRagPipeline: it returns `None` only when the store load raised. Other failures inside `__init__` also give `None` in the code and are not modelled: the construction of the embedding model and the Ollama client (src/rag_pipeline.py:19-30), `PromptTemplate.from_template` on a malformed `rag_template` (src/rag_pipeline.py:66), `RetrievalQA.from_chain_type` (src/rag_pipeline.py:68-74), and a `KeyError` from a missing configuration or template key. The embedding construction inside `load_vector_store` is modelled (`Config.loadEmbedError`). `Rag.Pipeline.constructor` takes the already-loaded store.
- `str.format` (`Templates.Format`) is modelled for named fields and doubled braces only. Format specifications, conversions, and positional, indexed or attribute fields are not: the model looks up the whole text between the braces as a key. The lemmas about fields (Templates.FormatFieldHead, Templates.FormatFieldThen, Templates.FormatMissingField, Templates.FormatField, Templates.FormatTwoFields, Rag.DebugTemplateUnknownField) are therefore stated only for plain names, which hold an ASCII letter or `_`. A field name made of other characters only (a Unicode digit, a non-ASCII letter) is not covered by them.
- Python's `lower()` and pandas' `case=False` are modelled for ASCII letters only. The search query is matched as a plain substring, whereas pandas reads it as a regular expression.
- PyText.ParseNat: `int()` also accepts surrounding whitespace, a sign and underscores. Only digit strings are modelled; other labels are treated as raising.
- The spreadsheets are stores in memory. Reading them back, the `NaN` of an empty cell (modelled as `None`), timestamps and their formatting are not modelled. The two saves of an answer are separate and not atomic, as in the code.
- Board.QaBoard.SubmitQuestion and Board.QaBoard.AnswerQuestion: a `to_excel` that raises part-way is taken to leave the spreadsheet as it was; a truncated or partly rewritten file is not modelled.
- Ingest.CreateAndSaveVectorStore: a `save_local` that raises part-way is taken to leave the directory as it was; files written before the exception are not modelled.
- Identifiers (`time.time_ns()`) and timestamps are parameters. Their uniqueness is not claimed.
- Board.QaBoard.SubmitQuestion and Board.QaBoard.AnswerQuestion test the text as typed, so a whitespace-only question or answer passes the test and is stored stripped, as "". This is the code's behaviour and is modelled as written.
- The nested image loop and the table loop of `extract_additional_content_from_pdf` are methods of their own (`Ingest.OcrImage`, `Ingest.OcrPage`, `Ingest.OcrFromImages`, `Ingest.TableRecords`). Between them they reproduce the single `try` block.
- Logging with `print` is not modelled.

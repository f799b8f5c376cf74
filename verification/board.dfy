/** The community Q&A board of `app.py`: who may answer, the FAQ search, and
    the two stores (pending questions and FAQs) that submitting and answering
    rewrite.

    Each store stands for the spreadsheet it is saved to. A save that fails
    is taken to leave the store as it was (a part-way write is not modelled);
    whether a save succeeds is an input. Identifiers and timestamps are
    inputs too. */
module Board {
  import opened Outcomes
  import opened PyText

  // ---------------------------------------------------------------------------
  // Users and the access rule
  // ---------------------------------------------------------------------------

  /** The logged-in user's record in the session. */
  datatype UserData = UserData(name: string, email: string, experienceLevel: string, userId: string)

  /** The choices offered at login. */
  const ExperienceLevels: seq<string> := ["0-2yr", "3-5yr", "6yr and above"]

  /** `CAN_ANSWER_QUESTION`: the session's experience level is one of the two
      senior levels; an empty session (no user data) has no level. */
  function CanAnswer(user: Option<UserData>): (b: bool)
    ensures b ==> user.Some? && user.value.experienceLevel in ExperienceLevels
    ensures b ==> user.value.experienceLevel != "0-2yr"
  {
    user.Some? && user.value.experienceLevel in ["3-5yr", "6yr and above"]
  }

  /** Exactly the users with three or more years of experience may answer:
      among the levels offered, only "0-2yr" is refused, and so is a session
      without user data. */
  lemma CanAnswerIff(user: Option<UserData>)
    ensures user.None? ==> !CanAnswer(user)
    ensures user.Some? && user.value.experienceLevel in ExperienceLevels ==>
              (CanAnswer(user) <==> user.value.experienceLevel != "0-2yr")
    ensures CanAnswer(user) ==> user.value.experienceLevel in ExperienceLevels
  {
  }

  // ---------------------------------------------------------------------------
  // Records
  // ---------------------------------------------------------------------------

  /** A row of the pending-questions sheet. A cell read back empty is `None`. */
  datatype PendingQuestion = PendingQuestion(id: string, question: Option<string>, timestamp: int, askedBy: string)

  /** A row of the FAQ sheet. A cell read back empty is `None`. */
  datatype Faq = Faq(id: string, question: Option<string>, answer: Option<string>, timestamp: int, createdBy: string)

  // ---------------------------------------------------------------------------
  // FAQ search
  // ---------------------------------------------------------------------------

  /** `s.str.contains(query, case=False, na=False)` on one cell: a missing
      value never matches. */
  predicate CellMatches(cell: Option<string>, query: string) {
    cell.Some? && Contains(Lower(cell.value), Lower(query))
  }

  /** The FAQ's question or its answer contains the query, ignoring case. */
  predicate Matches(f: Faq, query: string) {
    CellMatches(f.question, query) || CellMatches(f.answer, query)
  }

  /** The FAQs that match the query, in their original order. */
  function Matching(faqs: seq<Faq>, query: string): (r: seq<Faq>)
    ensures |r| <= |faqs|
  {
    if faqs == [] then []
    else
      var last := faqs[|faqs| - 1];
      Matching(faqs[..|faqs| - 1], query) + (if Matches(last, query) then [last] else [])
  }

  /** The FAQ tab's list: every FAQ for an empty query, otherwise the
      matching ones. */
  function Search(faqs: seq<Faq>, query: string): (r: seq<Faq>)
    ensures query == [] ==> r == faqs
    ensures query != [] ==> r == Matching(faqs, query)
  {
    if query == [] then faqs else Matching(faqs, query)
  }

  /** A FAQ is listed exactly when it is one of the FAQs and it matches. */
  lemma {:induction false} MatchingMembers(faqs: seq<Faq>, query: string, f: Faq)
    ensures f in Matching(faqs, query) <==> f in faqs && Matches(f, query)
    decreases |faqs|
  {
    if faqs != [] {
      var init, last := faqs[..|faqs| - 1], faqs[|faqs| - 1];
      MatchingMembers(init, query, f);
      assert faqs == init + [last];
    }
  }

  /** Searching a list in two parts searches each part and keeps them in
      order; so the search keeps the FAQs' original order. */
  lemma {:induction false} MatchingConcat(a: seq<Faq>, b: seq<Faq>, query: string)
    ensures Matching(a + b, query) == Matching(a, query) + Matching(b, query)
    decreases |b|
  {
    if b == [] {
      assert a + b == a;
    } else {
      var init, last := b[..|b| - 1], b[|b| - 1];
      assert (a + b)[..|a + b| - 1] == a + init;
      assert (a + b)[|a + b| - 1] == last;
      MatchingConcat(a, init, query);
    }
  }

  /** Every listed FAQ matches, and searching the result again changes nothing. */
  lemma {:induction false} MatchingIdempotent(faqs: seq<Faq>, query: string)
    ensures forall f :: f in Matching(faqs, query) ==> Matches(f, query)
    ensures Matching(Matching(faqs, query), query) == Matching(faqs, query)
    decreases |faqs|
  {
    if faqs != [] {
      var init, last := faqs[..|faqs| - 1], faqs[|faqs| - 1];
      MatchingIdempotent(init, query);
      var head := Matching(init, query);
      if Matches(last, query) {
        MatchingConcat(head, [last], query);
        assert [last][..0] == [];
        assert Matching([last], query) == [last];
        assert Matching(faqs, query) == head + [last];
        assert Matching(head + [last], query) == head + [last];
      } else {
        assert head + [] == head;
        assert Matching(faqs, query) == head;
      }
    }
  }

  /** The search ignores case: lower-casing the query lists the same FAQs. */
  lemma {:induction false} MatchingIgnoresCase(faqs: seq<Faq>, query: string)
    ensures Matching(faqs, Lower(query)) == Matching(faqs, query)
    decreases |faqs|
  {
    LowerIdempotent(query);
    if faqs != [] {
      MatchingIgnoresCase(faqs[..|faqs| - 1], query);
    }
  }

  /** An FAQ whose question and answer are both missing never matches. */
  lemma MissingNeverMatches(f: Faq, query: string)
    requires f.question.None? && f.answer.None?
    ensures !Matches(f, query)
  {
  }

  // ---------------------------------------------------------------------------
  // Removing an answered question
  // ---------------------------------------------------------------------------

  /** `df.drop(index)`: the list without its entry at `index`. */
  function Drop<T>(s: seq<T>, index: nat): (r: seq<T>)
    requires index < |s|
    ensures |r| == |s| - 1
  {
    s[..index] + s[index + 1..]
  }

  /** Dropping removes exactly the one entry: the others stay, in order. */
  lemma DropKeepsOthers<T>(s: seq<T>, index: nat)
    requires index < |s|
    ensures forall j :: 0 <= j < index ==> Drop(s, index)[j] == s[j]
    ensures forall j :: index <= j < |s| - 1 ==> Drop(s, index)[j] == s[j + 1]
    ensures multiset(Drop(s, index)) + multiset{s[index]} == multiset(s)
  {
    assert s == s[..index] + [s[index]] + s[index + 1..];
  }

  // ---------------------------------------------------------------------------
  // The two stores
  // ---------------------------------------------------------------------------

  /** A message shown to the user. */
  datatype Notice = Success(text: string) | Error(text: string) | Info(text: string)

  /** The result of `save_data_to_excel`. */
  datatype Write = Written | WriteFailed(error: string)

  const PendingQuestionsFile: string := "data/pending_questions.xlsx"
  /** The FAQ file used when the configuration names none. */
  const DefaultFaqFile: string := "data/faqs.xlsx"

  /** `config_data.get('excel_faq_file', "data/faqs.xlsx")`. */
  function FaqFileOf(configured: Option<string>): (path: string)
    ensures configured.Some? ==> path == configured.value
    ensures configured.None? ==> path == DefaultFaqFile
  {
    match configured
    case Some(p) => p
    case None => DefaultFaqFile
  }

  /** The error `save_data_to_excel` shows when a save fails. */
  function SaveError(path: string, w: Write): (notices: seq<Notice>)
    ensures notices == [] <==> w.Written?
    ensures forall n :: n in notices ==> n.Error?
  {
    match w
    case Written => []
    case WriteFailed(e) => [Error("Error saving to " + path + ": " + e)]
  }

  class QaBoard {
    /** The path the FAQ sheet is saved to. */
    const faqFile: string
    /** The pending-questions sheet, newest first. */
    var pending: seq<PendingQuestion>
    /** The FAQ sheet, newest first. */
    var faqs: seq<Faq>

    /** The board over the stores as loaded, saving FAQs to the configured
        file. */
    constructor(configuredFaqFile: Option<string>, pending: seq<PendingQuestion>, faqs: seq<Faq>)
      ensures faqFile == FaqFileOf(configuredFaqFile)
      ensures this.pending == pending && this.faqs == faqs
    {
      faqFile := FaqFileOf(configuredFaqFile);
      this.pending := pending;
      this.faqs := faqs;
    }

    /** The "Submit Question" form. A non-empty question is stripped and put
        in front of the pending questions, which is saved; the FAQs never
        change. The emptiness test is on the text as typed. */
    method SubmitQuestion(text: string, user: UserData, nanos: nat, now: int, write: Write)
      returns (notices: seq<Notice>)
      modifies this
      ensures faqs == old(faqs)
      ensures text == [] ==> pending == old(pending) && notices == [Error("Please enter a question.")]
      ensures text != [] && write.Written? ==>
                && pending == [PendingQuestion(NatToString(nanos), Some(Strip(text)), now, user.name)] + old(pending)
                && notices == [Success("Your question has been submitted for review and will appear below.")]
      ensures text != [] && write.WriteFailed? ==>
                pending == old(pending) && notices == SaveError(PendingQuestionsFile, write)
    {
      if text == [] {
        return [Error("Please enter a question.")];
      }
      var row := PendingQuestion(NatToString(nanos), Some(Strip(text)), now, user.name);
      var updated := [row] + pending;
      notices := SaveError(PendingQuestionsFile, write);
      if write.Written? {
        pending := updated;
        notices := [Success("Your question has been submitted for review and will appear below.")];
      }
    }

    /** The answer form of pending question `index`. Only a user who may
        answer sees the form. A non-empty answer puts a new FAQ (the pending
        question's id and text, the stripped answer, the answerer's name) in
        front of the FAQs and drops the pending question; the two saves are
        separate, each may fail on its own, and success is announced
        regardless. */
    method AnswerQuestion(index: nat, answer: string, user: Option<UserData>, now: int,
                          faqWrite: Write, pendingWrite: Write)
      returns (notices: seq<Notice>)
      requires index < |pending|
      modifies this
      ensures !CanAnswer(user) ==>
                && pending == old(pending) && faqs == old(faqs)
                && notices == [Info("You must have 3+ years of experience to answer questions.")]
      ensures CanAnswer(user) && answer == [] ==>
                pending == old(pending) && faqs == old(faqs) && notices == [Error("Please provide an answer.")]
      ensures CanAnswer(user) && answer != [] ==>
                var q := old(pending)[index];
                && faqs == (if faqWrite.Written?
                            then [Faq(q.id, q.question, Some(Strip(answer)), now, user.value.name)] + old(faqs)
                            else old(faqs))
                && pending == (if pendingWrite.Written? then Drop(old(pending), index) else old(pending))
                && notices == SaveError(faqFile, faqWrite) + SaveError(PendingQuestionsFile, pendingWrite)
                                + [Success("Answer submitted and added to FAQs!")]
    {
      if !CanAnswer(user) {
        return [Info("You must have 3+ years of experience to answer questions.")];
      }
      if answer == [] {
        return [Error("Please provide an answer.")];
      }
      var q := pending[index];
      var row := Faq(q.id, q.question, Some(Strip(answer)), now, user.value.name);
      var newFaqs := [row] + faqs;
      notices := SaveError(faqFile, faqWrite);
      if faqWrite.Written? {
        faqs := newFaqs;
      }
      var newPending := Drop(pending, index);
      notices := notices + SaveError(PendingQuestionsFile, pendingWrite);
      if pendingWrite.Written? {
        pending := newPending;
      }
      notices := notices + [Success("Answer submitted and added to FAQs!")];
    }
  }
}

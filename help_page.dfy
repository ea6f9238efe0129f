/** app/academy/dashboard/help/page.tsx: the help centre. Its FAQ tab narrows
    the question categories by a case-insensitive search; its contact tab
    holds a support request form that is cleared on submit. */
module HelpPage {
  import opened Common
  import opened Text

  datatype Faq = Faq(question: string, answer: string)
  datatype FaqCategory = FaqCategory(id: string, title: string, questions: seq<Faq>)

  /** The search test on one question: the term occurs in the question or
      the answer, ignoring case. */
  predicate FaqMatches(searchTerm: string, q: Faq) {
    ContainsIgnoringCase(q.question, searchTerm) || ContainsIgnoringCase(q.answer, searchTerm)
  }

  /** A category with only its matching questions (`{...category, questions: …}`). */
  function Narrow(searchTerm: string, c: FaqCategory): FaqCategory {
    c.(questions := Filter(c.questions, (q: Faq) => FaqMatches(searchTerm, q)))
  }

  /** The `.map` step: every category narrowed, in order. */
  function NarrowAll(searchTerm: string, cats: seq<FaqCategory>): (r: seq<FaqCategory>)
    ensures |r| == |cats|
    ensures forall i :: 0 <= i < |cats| ==> r[i] == Narrow(searchTerm, cats[i])
  {
    if cats == [] then [] else [Narrow(searchTerm, cats[0])] + NarrowAll(searchTerm, cats[1..])
  }

  predicate HasQuestions(c: FaqCategory) { |c.questions| > 0 }

  /** `filteredFAQs`: the narrowed categories that still hold a question. */
  function FilteredFaqs(searchTerm: string, cats: seq<FaqCategory>): seq<FaqCategory> {
    Filter(NarrowAll(searchTerm, cats), HasQuestions)
  }

  /** The list the FAQ tab shows: the filtered one while a term is typed, every category otherwise. */
  function DisplayedFaqs(searchTerm: string, cats: seq<FaqCategory>): seq<FaqCategory> {
    if searchTerm != "" then FilteredFaqs(searchTerm, cats) else cats
  }

  /** Whether the "No FAQ found" card is shown. */
  predicate ShowsNoResults(searchTerm: string, cats: seq<FaqCategory>) {
    searchTerm != "" && |FilteredFaqs(searchTerm, cats)| == 0
  }

  /** What the filtered list holds: each entry is an input category cut down to
      its matching questions, in the original order of both; an input category
      appears (narrowed) exactly when one of its questions matches. */
  lemma FilteredFaqsContents(searchTerm: string, cats: seq<FaqCategory>)
    ensures var r := FilteredFaqs(searchTerm, cats);
      && IsSubsequence(r, NarrowAll(searchTerm, cats))
      && (forall c :: c in r ==> HasQuestions(c) && exists i :: 0 <= i < |cats| && c == Narrow(searchTerm, cats[i]))
      && (forall c :: c in r ==> forall q :: q in c.questions ==> FaqMatches(searchTerm, q))
      && (forall i :: 0 <= i < |cats| ==>
            (Narrow(searchTerm, cats[i]) in r <==> exists q :: q in cats[i].questions && FaqMatches(searchTerm, q)))
  {
    var narrowed := NarrowAll(searchTerm, cats);
    FilterIsSubsequence(narrowed, HasQuestions);
    forall i | 0 <= i < |cats|
      ensures HasQuestions(Narrow(searchTerm, cats[i])) <==> exists q :: q in cats[i].questions && FaqMatches(searchTerm, q)
    {
      NarrowKeepsMatches(searchTerm, cats[i]);
    }
    forall c | c in FilteredFaqs(searchTerm, cats)
      ensures exists i :: 0 <= i < |cats| && c == Narrow(searchTerm, cats[i])
    {
      var k :| 0 <= k < |narrowed| && narrowed[k] == c;
      assert c == Narrow(searchTerm, cats[k]);
    }
  }

  /** A narrowed category keeps a question exactly when it matches. */
  lemma NarrowKeepsMatches(searchTerm: string, c: FaqCategory)
    ensures forall q :: q in Narrow(searchTerm, c).questions <==> q in c.questions && FaqMatches(searchTerm, q)
    ensures HasQuestions(Narrow(searchTerm, c)) <==> exists q :: q in c.questions && FaqMatches(searchTerm, q)
  {
    var r := Narrow(searchTerm, c).questions;
    if exists q :: q in c.questions && FaqMatches(searchTerm, q) {
      var q :| q in c.questions && FaqMatches(searchTerm, q);
      assert q in r;
    }
    if |r| > 0 {
      assert r[0] in r;
    }
  }

  /** With no term typed the tab shows every category, untouched, and never
      the "No FAQ found" card. */
  lemma EmptySearchShowsEverything(cats: seq<FaqCategory>)
    ensures DisplayedFaqs("", cats) == cats
    ensures !ShowsNoResults("", cats)
  {
  }

  /** The "No FAQ found" card appears exactly when a term is typed and no
      question of any category matches it. */
  lemma NoResultsIffNothingMatches(searchTerm: string, cats: seq<FaqCategory>)
    ensures ShowsNoResults(searchTerm, cats) <==>
      searchTerm != "" && forall i, q :: 0 <= i < |cats| && q in cats[i].questions ==> !FaqMatches(searchTerm, q)
  {
    FilteredFaqsContents(searchTerm, cats);
    var r := FilteredFaqs(searchTerm, cats);
    if |r| == 0 {
      forall i, q | 0 <= i < |cats| && q in cats[i].questions
        ensures !FaqMatches(searchTerm, q)
      {
        NarrowKeepsMatches(searchTerm, cats[i]);
        assert Narrow(searchTerm, cats[i]) !in r;
      }
    } else {
      var c := r[0];
      assert c in r;
      var i :| 0 <= i < |cats| && c == Narrow(searchTerm, cats[i]);
      NarrowKeepsMatches(searchTerm, cats[i]);
      var q := c.questions[0];
      assert q in cats[i].questions && FaqMatches(searchTerm, q);
    }
  }

  /** The support request form. */
  datatype SupportRequest = SupportRequest(subject: string, category: string, message: string, priority: string)

  /** The form as it starts and as every submit leaves it. */
  const BlankRequest: SupportRequest := SupportRequest("", "general", "", "medium")

  /** The fields of the form an input can change. */
  datatype FormField = Subject | Category | Message | Priority

  /** `setSupportForm((prev) => ({ ...prev, <field>: value }))`. */
  function SetField(form: SupportRequest, field: FormField, value: string): (r: SupportRequest)
    ensures field == Subject ==> r == form.(subject := value)
    ensures field == Category ==> r == form.(category := value)
    ensures field == Message ==> r == form.(message := value)
    ensures field == Priority ==> r == form.(priority := value)
  {
    match field
    case Subject => form.(subject := value)
    case Category => form.(category := value)
    case Message => form.(message := value)
    case Priority => form.(priority := value)
  }

  /** The page's state: the search term and the support form. */
  class HelpSupportPage {
    var searchTerm: string
    var supportForm: SupportRequest

    constructor ()
      ensures searchTerm == "" && supportForm == BlankRequest
    {
      searchTerm := "";
      supportForm := BlankRequest;
    }

    /** The search input. */
    method SetSearchTerm(term: string)
      modifies this
      ensures searchTerm == term && supportForm == old(supportForm)
    {
      searchTerm := term;
    }

    /** One of the form's inputs. */
    method EditForm(field: FormField, value: string)
      modifies this
      ensures supportForm == SetField(old(supportForm), field, value)
      ensures searchTerm == old(searchTerm)
    {
      supportForm := SetField(supportForm, field, value);
    }

    /** `handleSupportSubmit`: returns the request it logs and puts the form
        back to its initial values. */
    method HandleSupportSubmit() returns (logged: SupportRequest)
      modifies this
      ensures logged == old(supportForm)
      ensures supportForm == BlankRequest && searchTerm == old(searchTerm)
    {
      logged := supportForm;
      supportForm := BlankRequest;
    }
  }
}

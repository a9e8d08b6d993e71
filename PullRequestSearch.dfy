/**
 * The pull-request list filter of the GitHub plugin and its translation into a
 * GitHub search query: six optional filters become an ordered list of query terms.
 */
module PullRequestSearch {
  import opened Wrappers

  datatype State = Open | Closed | Merged

  datatype ReviewState =
    | NoReview
    | Required
    | Approved
    | ChangesRequested
    | ReviewedByMe
    | NotReviewedByMe
    | AwaitingReview

  /** The six optional filters of the list; `None` is an unset filter. */
  datatype SearchState = SearchState(
    searchQuery: Option<string>,
    state: Option<State>,
    assignee: Option<string>,
    reviewState: Option<ReviewState>,
    author: Option<string>,
    labelName: Option<string>)
  {
    predicate IsEmpty() {
      searchQuery.None? && state.None? && assignee.None? && reviewState.None? && author.None? && labelName.None?
    }
  }

  /** The filter a fresh list starts with: open pull requests only. */
  const Default := SearchState(None, Some(Open), None, None, None, None)

  /** No filter at all. */
  const Empty := SearchState(None, None, None, None, None, None)

  /** Qualifier names of the search syntax (`is:`, `assignee:`, `review:`, `reviewed-by:`, ...). */
  datatype QualifierName = Is | Assignee | Review | ReviewedBy | ReviewRequested | Author | Label

  /** The issue states a qualifier can name as an enumeration value. */
  datatype IssueState = IssueOpen | IssueClosed

  /** One term of a search query: free text, or a qualifier with an enumeration or a plain value. */
  datatype Term =
    | QueryPart(text: string)
    | EnumQualifier(name: QualifierName, issueState: IssueState)
    | SimpleQualifier(name: QualifierName, value: string, negated: bool)

  datatype SearchQuery = SearchQuery(terms: seq<Term>)

  /** The `is:` term of a pull-request state. */
  function StateTerm(s: State): Term {
    match s
    case Open => EnumQualifier(Is, IssueOpen)
    case Closed => EnumQualifier(Is, IssueClosed)
    case Merged => SimpleQualifier(Is, "merged", false)
  }

  /** The term of a review filter. */
  function ReviewTerm(r: ReviewState): Term {
    match r
    case NoReview => SimpleQualifier(Review, "none", false)
    case Required => SimpleQualifier(Review, "required", false)
    case Approved => SimpleQualifier(Review, "approved", false)
    case ChangesRequested => SimpleQualifier(Review, "changes-requested", false)
    case ReviewedByMe => SimpleQualifier(ReviewedBy, "@me", false)
    case NotReviewedByMe => Not(SimpleQualifier(ReviewedBy, "@me", false))
    case AwaitingReview => SimpleQualifier(ReviewRequested, "@me", false)
  }

  /** `Qualifier.not()`: the negated form of a plain qualifier. */
  function Not(t: Term): Term
    requires t.SimpleQualifier?
  {
    t.(negated := true)
  }

  /** The term filter number `k` (0 free text, 1 state, 2 assignee, 3 review, 4 author, 5 label) contributes, if set. */
  function FieldTerm(s: SearchState, k: nat): Option<Term> {
    if k == 0 then (if s.searchQuery.Some? then Some(QueryPart(s.searchQuery.value)) else None)
    else if k == 1 then (if s.state.Some? then Some(StateTerm(s.state.value)) else None)
    else if k == 2 then (if s.assignee.Some? then Some(SimpleQualifier(Assignee, s.assignee.value, false)) else None)
    else if k == 3 then (if s.reviewState.Some? then Some(ReviewTerm(s.reviewState.value)) else None)
    else if k == 4 then (if s.author.Some? then Some(SimpleQualifier(Author, s.author.value, false)) else None)
    else if k == 5 then (if s.labelName.Some? then Some(SimpleQualifier(Label, s.labelName.value, false)) else None)
    else None
  }

  /** Which filter a term comes from, read off the term itself. */
  function Rank(t: Term): nat {
    match t
    case QueryPart(_) => 0
    case EnumQualifier(_, _) => 1
    case SimpleQualifier(name, _, _) =>
      match name
      case Is => 1
      case Assignee => 2
      case Review => 3
      case ReviewedBy => 3
      case ReviewRequested => 3
      case Author => 4
      case Label => 5
  }

  /** The term of filter `k` as a list of zero or one terms. */
  function FieldTerms(s: SearchState, k: nat): seq<Term> {
    if FieldTerm(s, k).Some? then [FieldTerm(s, k).value] else []
  }

  /** Reference definition of the query terms: the terms of the set filters among the first `k`, in filter order. */
  function TermsUpTo(s: SearchState, k: nat): seq<Term> {
    if k == 0 then [] else TermsUpTo(s, k - 1) + FieldTerms(s, k - 1)
  }

  /** All six filters. */
  function Terms(s: SearchState): seq<Term> {
    TermsUpTo(s, 6)
  }

  /** The number of set filters. */
  function PresentCount(s: SearchState): nat {
    (if s.searchQuery.Some? then 1 else 0) + (if s.state.Some? then 1 else 0)
    + (if s.assignee.Some? then 1 else 0) + (if s.reviewState.Some? then 1 else 0)
    + (if s.author.Some? then 1 else 0) + (if s.labelName.Some? then 1 else 0)
  }

  /** Every term names the filter it came from. */
  lemma FieldTermRank(s: SearchState, k: nat)
    requires FieldTerm(s, k).Some?
    ensures k < 6 && Rank(FieldTerm(s, k).value) == k
  {
    if k == 1 {
      match s.state.value
      case Open =>
      case Closed =>
      case Merged =>
    } else if k == 3 {
      match s.reviewState.value
      case NoReview =>
      case Required =>
      case Approved =>
      case ChangesRequested =>
      case ReviewedByMe =>
      case NotReviewedByMe =>
      case AwaitingReview =>
    }
  }

  /**
   * The terms of the first `k` filters are strictly ordered by filter, each term is the
   * one its filter maps to, and every set filter among the first `k` has its term.
   */
  lemma {:induction false} TermsUpToOrdered(s: SearchState, k: nat)
    ensures forall i :: 0 <= i < |TermsUpTo(s, k)| ==> Rank(TermsUpTo(s, k)[i]) < k
    ensures forall i, j :: 0 <= i < j < |TermsUpTo(s, k)| ==> Rank(TermsUpTo(s, k)[i]) < Rank(TermsUpTo(s, k)[j])
    ensures forall i :: 0 <= i < |TermsUpTo(s, k)| ==> FieldTerm(s, Rank(TermsUpTo(s, k)[i])) == Some(TermsUpTo(s, k)[i])
    ensures forall f :: 0 <= f < k && FieldTerm(s, f).Some? ==> FieldTerm(s, f).value in TermsUpTo(s, k)
  {
    if k > 0 {
      TermsUpToOrdered(s, k - 1);
      if FieldTerm(s, k - 1).Some? {
        FieldTermRank(s, k - 1);
      }
    }
  }

  /** One term per set filter. */
  lemma TermsCount(s: SearchState)
    ensures |Terms(s)| == PresentCount(s)
  {
    assert |TermsUpTo(s, 1)| == (if s.searchQuery.Some? then 1 else 0);
    assert |TermsUpTo(s, 2)| == |TermsUpTo(s, 1)| + (if s.state.Some? then 1 else 0);
    assert |TermsUpTo(s, 3)| == |TermsUpTo(s, 2)| + (if s.assignee.Some? then 1 else 0);
    assert |TermsUpTo(s, 4)| == |TermsUpTo(s, 3)| + (if s.reviewState.Some? then 1 else 0);
    assert |TermsUpTo(s, 5)| == |TermsUpTo(s, 4)| + (if s.author.Some? then 1 else 0);
    assert |TermsUpTo(s, 6)| == |TermsUpTo(s, 5)| + (if s.labelName.Some? then 1 else 0);
  }

  /** No terms exactly when no filter is set. */
  lemma TermsEmptyIff(s: SearchState)
    ensures Terms(s) == [] <==> s.IsEmpty()
  {
    TermsCount(s);
  }

  /** One more filter adds its term, if set, at the end. */
  lemma TermsUpToNext(s: SearchState, k: nat, terms: seq<Term>)
    requires terms == TermsUpTo(s, k)
    ensures TermsUpTo(s, k + 1) == terms + FieldTerms(s, k)
  {
  }

  /** After the six filters, the terms are all of them. */
  lemma TermsComplete(s: SearchState, k: nat, terms: seq<Term>)
    requires k == 6 && terms == TermsUpTo(s, k)
    ensures terms == Terms(s)
  {
  }

  /** Everything `toQuery` promises about the full term list. */
  lemma TermsFacts(s: SearchState)
    ensures Terms(s) == [] <==> s.IsEmpty()
    ensures |Terms(s)| == PresentCount(s)
    ensures forall i, j :: 0 <= i < j < |Terms(s)| ==> Rank(Terms(s)[i]) < Rank(Terms(s)[j])
    ensures forall i :: 0 <= i < |Terms(s)| ==> FieldTerm(s, Rank(Terms(s)[i])) == Some(Terms(s)[i])
  {
    TermsUpToOrdered(s, 6);
    TermsCount(s);
    TermsEmptyIff(s);
  }

  /** The `buildList` of `toQuery`: one term per set filter, in filter order. */
  method BuildTerms(s: SearchState) returns (terms: seq<Term>)
    ensures terms == Terms(s)
  {
    terms := [];
    ghost var k: nat := 0;
    TermsUpToNext(s, k, terms);
    if s.searchQuery.Some? {
      terms := terms + [QueryPart(s.searchQuery.value)];
    }
    k := k + 1;
    TermsUpToNext(s, k, terms);
    if s.state.Some? {
      terms := terms + [StateTerm(s.state.value)];
    }
    k := k + 1;
    TermsUpToNext(s, k, terms);
    if s.assignee.Some? {
      terms := terms + [SimpleQualifier(Assignee, s.assignee.value, false)];
    }
    k := k + 1;
    TermsUpToNext(s, k, terms);
    if s.reviewState.Some? {
      terms := terms + [ReviewTerm(s.reviewState.value)];
    }
    k := k + 1;
    TermsUpToNext(s, k, terms);
    if s.author.Some? {
      terms := terms + [SimpleQualifier(Author, s.author.value, false)];
    }
    k := k + 1;
    TermsUpToNext(s, k, terms);
    if s.labelName.Some? {
      terms := terms + [SimpleQualifier(Label, s.labelName.value, false)];
    }
    k := k + 1;
    TermsComplete(s, k, terms);
  }

  /** `toQuery`: the terms of the set filters, in filter order; no query at all when nothing is set. */
  method ToQuery(s: SearchState) returns (q: Option<SearchQuery>)
    ensures q.None? <==> s.IsEmpty()
    ensures q.Some? ==> q.value.terms == Terms(s)
    ensures q.Some? ==> |q.value.terms| == PresentCount(s)
    ensures q.Some? ==> forall i, j :: 0 <= i < j < |q.value.terms| ==> Rank(q.value.terms[i]) < Rank(q.value.terms[j])
    ensures q.Some? ==> forall i :: 0 <= i < |q.value.terms| ==> FieldTerm(s, Rank(q.value.terms[i])) == Some(q.value.terms[i])
  {
    var terms := BuildTerms(s);
    TermsFacts(s);
    if terms == [] {
      return None;
    }
    return Some(SearchQuery(terms));
  }

  /** The review filters map to pairwise different terms; "not reviewed by me" is the negation of "reviewed by me" and the only negated one. */
  lemma ReviewTermsDistinct(a: ReviewState, b: ReviewState)
    ensures ReviewTerm(a) == ReviewTerm(b) <==> a == b
    ensures ReviewTerm(NotReviewedByMe) == Not(ReviewTerm(ReviewedByMe))
    ensures ReviewTerm(a).SimpleQualifier? && (ReviewTerm(a).negated <==> a == NotReviewedByMe)
  {
  }

  /** The state filters map to pairwise different `is:` terms. */
  lemma StateTermsDistinct(a: State, b: State)
    ensures StateTerm(a) == StateTerm(b) <==> a == b
    ensures Rank(StateTerm(a)) == 1
  {
  }

  /** The default filter yields the single term `is:open`; the empty filter yields no query. */
  lemma DefaultAndEmptyQueries()
    ensures Terms(Default) == [EnumQualifier(Is, IssueOpen)]
    ensures Empty.IsEmpty() && Terms(Empty) == []
    ensures !Default.IsEmpty()
  {
  }
}

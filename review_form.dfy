/**
 * The mentor's review form (components/review-form.tsx): a checklist of four
 * booleans, a rating and comments. Submitting saves the review with a
 * computed `verified` flag and, for a verified project, asks for its
 * portfolio to be created.
 */
module ReviewForm {
  import opened Common
  import opened Store
  import RequestReview

  /** The form state. `rating` is `None` when the rating input does not parse (NaN). */
  datatype FormData = FormData(meetsBrief: bool, coreFunctional: bool, docsOk: bool, demoOk: bool,
                               rating: Option<int>, comments: string)

  /** A request the form sends. */
  datatype Request =
    | PatchReview(reviewId: Id, form: FormData, verified: bool)
    | CreatePortfolio(projectId: Id, reviewId: Id)

  const ReviewsPage: string := "/mentor/reviews"

  /** `x || false` on a nullable boolean column. */
  function FlagOrFalse(b: Option<bool>): (r: bool)
    ensures r <==> b == Some(true)
  {
    b.Some? && b.value
  }

  /**
   * The initial form for a stored review: absent checklist flags are false,
   * an absent or zero rating is 3, absent or empty comments are "".
   */
  function Defaults(review: Review): (d: FormData)
    ensures d.meetsBrief <==> review.meetsBrief == Some(true)
    ensures d.coreFunctional <==> review.coreFunctional == Some(true)
    ensures d.docsOk <==> review.docsOk == Some(true)
    ensures d.demoOk <==> review.demoOk == Some(true)
    ensures d.rating.Some?
    ensures review.rating.None? || review.rating.value == 0 ==> d.rating == Some(3)
    ensures review.rating.Some? && review.rating.value != 0 ==> d.rating == review.rating
    ensures d.comments == if review.comments.Some? then review.comments.value else ""
  {
    FormData(FlagOrFalse(review.meetsBrief), FlagOrFalse(review.coreFunctional),
             FlagOrFalse(review.docsOk), FlagOrFalse(review.demoOk),
             if review.rating.None? || review.rating.value == 0 then Some(3) else review.rating,
             if review.comments.Some? then review.comments.value else "")
  }

  /** The four checklist answers, in form order. */
  function Checks(d: FormData): seq<bool>
  {
    [d.meetsBrief, d.coreFunctional, d.docsOk, d.demoOk]
  }

  /** The number of true values in `bs`. */
  function CountTrue(bs: seq<bool>): (n: nat)
    ensures n <= |bs|
    ensures n == |bs| <==> forall i | 0 <= i < |bs| :: bs[i]
    ensures n == 0 <==> forall i | 0 <= i < |bs| :: !bs[i]
  {
    if bs == [] then 0 else (if bs[0] then 1 else 0) + CountTrue(bs[1..])
  }

  /** The count is the number of occurrences of `true`, as `filter(Boolean).length` gives. */
  lemma {:induction false} CountTrueIsOccurrences(bs: seq<bool>)
    ensures CountTrue(bs) == multiset(bs)[true]
  {
    if bs != [] {
      assert bs == [bs[0]] + bs[1..];
      assert multiset(bs) == multiset{bs[0]} + multiset(bs[1..]);
      CountTrueIsOccurrences(bs[1..]);
    }
  }

  /** `trueCount`: how many checklist answers are true. */
  function TrueCount(d: FormData): (n: nat)
    ensures n <= 4
    ensures n == 4 <==> d.meetsBrief && d.coreFunctional && d.docsOk && d.demoOk
    ensures n == 0 <==> !d.meetsBrief && !d.coreFunctional && !d.docsOk && !d.demoOk
    ensures n == (if d.meetsBrief then 1 else 0) + (if d.coreFunctional then 1 else 0)
                 + (if d.docsOk then 1 else 0) + (if d.demoOk then 1 else 0)
  {
    CountTrueOfFour(d.meetsBrief, d.coreFunctional, d.docsOk, d.demoOk);
    CountTrue(Checks(d))
  }

  /** Four answers, counted one by one. */
  lemma CountTrueOfFour(a: bool, b: bool, c: bool, e: bool)
    ensures CountTrue([a, b, c, e])
            == (if a then 1 else 0) + (if b then 1 else 0) + (if c then 1 else 0) + (if e then 1 else 0)
  {
    var bs := [a, b, c, e];
    assert bs[1..] == [b, c, e];
    assert bs[1..][1..] == [c, e];
    assert bs[1..][1..][1..] == [e];
    assert CountTrue(bs[1..][1..][1..]) == (if e then 1 else 0);
    assert CountTrue(bs[1..][1..]) == (if c then 1 else 0) + (if e then 1 else 0);
    assert CountTrue(bs[1..]) == (if b then 1 else 0) + (if c then 1 else 0) + (if e then 1 else 0);
  }

  /** The verification rule: at least three checks and a rating of at least 3 (NaN fails). */
  predicate IsVerified(d: FormData)
  {
    TrueCount(d) >= 3 && d.rating.Some? && d.rating.value >= 3
  }

  /** The rule stated without counting: no two checklist answers are both false, and the rating is at least 3. */
  lemma VerifiedIffAtMostOneUnchecked(d: FormData)
    ensures IsVerified(d) <==>
              && (d.meetsBrief || d.coreFunctional) && (d.meetsBrief || d.docsOk) && (d.meetsBrief || d.demoOk)
              && (d.coreFunctional || d.docsOk) && (d.coreFunctional || d.demoOk) && (d.docsOk || d.demoOk)
              && d.rating.Some? && d.rating.value >= 3
  {
  }

  /** The examples of the rule: (4 checks, 5) and (3, 3) verify; (2, 5), (3, 2) and (0, 1) do not. */
  lemma VerifiedExamples()
    ensures IsVerified(FormData(true, true, true, true, Some(5), ""))
    ensures IsVerified(FormData(true, true, true, false, Some(3), ""))
    ensures !IsVerified(FormData(true, true, false, false, Some(5), ""))
    ensures !IsVerified(FormData(true, true, true, false, Some(2), ""))
    ensures !IsVerified(FormData(false, false, false, false, Some(1), ""))
  {
    VerifiedIffAtMostOneUnchecked(FormData(true, true, true, false, Some(3), ""));
    VerifiedIffAtMostOneUnchecked(FormData(true, true, false, false, Some(5), ""));
  }

  /** Ticking more boxes or raising the rating never withdraws verification. */
  lemma VerifiedMonotone(d: FormData, e: FormData)
    requires d.meetsBrief ==> e.meetsBrief
    requires d.coreFunctional ==> e.coreFunctional
    requires d.docsOk ==> e.docsOk
    requires d.demoOk ==> e.demoOk
    requires d.rating.Some? ==> e.rating.Some? && e.rating.value >= d.rating.value
    requires IsVerified(d)
    ensures IsVerified(e)
  {
    VerifiedIffAtMostOneUnchecked(d);
    VerifiedIffAtMostOneUnchecked(e);
  }

  /** The pending review a review request creates opens with nothing checked and rating 3, so it is not verified. */
  lemma PendingReviewOpensUnverified(projectId: Id, mentorId: Id)
    ensures var d := Defaults(RequestReview.PendingReview(projectId, mentorId));
            d == FormData(false, false, false, false, Some(3), "") && !IsVerified(d)
  {
  }

  /** The form of one review, with what it has sent and where it has navigated. */
  class Form {
    const reviewId: Id
    const projectId: Id
    var data: FormData
    var loading: bool
    var sent: seq<Request>
    var navigations: seq<string>

    constructor (reviewId: Id, projectId: Id, review: Review)
      ensures this.reviewId == reviewId && this.projectId == projectId
      ensures data == Defaults(review) && !loading && sent == [] && navigations == []
    {
      this.reviewId := reviewId;
      this.projectId := projectId;
      data := Defaults(review);
      loading := false;
      sent := [];
      navigations := [];
    }

    /**
     * `handleSubmit`. The review PATCH carries the form and the computed flag;
     * `patchOk` is whether it succeeded and its body parsed. Only then, and
     * only for a verified form, is the portfolio requested; its answer is not
     * read, but a request that throws (`portfolioThrows`) skips the
     * navigation back to the review list. `loading` ends false either way.
     */
    method Submit(patchOk: bool, portfolioThrows: bool)
      modifies this
      ensures data == old(data) && !loading
      ensures sent == old(sent) + [PatchReview(reviewId, data, IsVerified(data))]
                      + if patchOk && IsVerified(data) then [CreatePortfolio(projectId, reviewId)] else []
      ensures (exists i | old(|sent|) <= i < |sent| :: sent[i].CreatePortfolio?) <==> patchOk && IsVerified(data)
      ensures forall i | old(|sent|) <= i < |sent| && sent[i].CreatePortfolio? ::
                sent[i] == CreatePortfolio(projectId, reviewId)
      ensures navigations == old(navigations)
                             + if patchOk && !(IsVerified(data) && portfolioThrows) then [ReviewsPage] else []
    {
      loading := true;
      var verified := TrueCount(data) >= 3 && data.rating.Some? && data.rating.value >= 3;
      sent := sent + [PatchReview(reviewId, data, verified)];
      if patchOk {
        if verified {
          sent := sent + [CreatePortfolio(projectId, reviewId)];
          assert sent[|sent| - 1].CreatePortfolio?;
        }
        if !(verified && portfolioThrows) {
          navigations := navigations + [ReviewsPage];
        }
      }
      loading := false;
    }
  }
}

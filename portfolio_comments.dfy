/**
 * The review-comment panel (src/components/PortfolioComments.tsx), rendered on
 * the portfolio screen: its role gate and its submit handler.
 */
module PortfolioComments {
  import opened Common
  import opened AuthContext
  import App

  /** The roles the gate lets through, as the list the component tests membership in. */
  const ReviewerRoles: seq<Role> := [Admin, SuperAdmin]

  /**
   * The panel renders only for a signed-in user whose role is in the reviewer
   * list: exactly an admin or a super admin, so never with no user or for a student.
   */
  predicate ShowsPanel(user: Option<User>): (shown: bool)
    ensures shown <==> IsAdmin(user) || IsSuperAdmin(user)
    ensures user.None? || IsStudent(user) ==> !shown
  {
    user.Some? && user.value.role in ReviewerRoles
  }

  class CommentPanel {
    var comment: string
    var isSubmitting: bool

    constructor ()
      ensures comment == "" && !isSubmitting
    {
      comment, isSubmitting := "", false;
    }

    /** The textarea's change handler. */
    method Edit(text: string)
      modifies this
      ensures comment == text && isSubmitting == old(isSubmitting)
    {
      comment := text;
    }

    /** The submit handler: mark submitting, clear the text, then mark done. Returns the text it submitted. */
    method HandleSubmit() returns (submitted: string)
      modifies this
      ensures submitted == old(comment)
      ensures comment == "" && !isSubmitting
    {
      isSubmitting := true;
      submitted := comment;
      comment := "";
      isSubmitting := false;
    }
  }

  /**
   * Whatever path is opened, in whatever session state: if the app settles on
   * the portfolio screen, the comment panel on it stays hidden, since only a
   * student reaches that screen.
   */
  lemma NeverShownOnPortfolio(isLoading: bool, user: Option<User>, path: string)
    ensures App.OpenPath(isLoading, user, path).Landed?
         && App.OpenPath(isLoading, user, path).screen == App.PortfolioScreen
         ==> !ShowsPanel(user)
  {
    App.EveryVisitSettlesSafely(isLoading, user, path);
  }
}

/** The two scripts each maintain a deploy-info comment, but in different
    formats: collect.ts puts the marker on the first line and matches with
    `startsWith`, updateComments.ts puts it on the last line and matches with
    `endsWith`. Neither recognises a comment the other wrote. */
module CommentFormats {
  import opened Wrappers
  import opened Text
  import opened Api
  import opened Common
  import Collect
  import UpdateComments

  /** A bot comment holding collect.ts's message is not found by
      updateComments.ts, and one holding updateComments.ts's message is not
      found by collect.ts, for any pull request, repository and directory. */
  lemma FormatsAreDisjoint(pr: PullRequest, repoFullName: string, dirname: string, slug: string, id: int)
    ensures !UpdateComments.EndsWithMarkerComment(
              Comment(id, Some(BotLogin(slug)), Some(Collect.DeployInfoMessage(pr, repoFullName, dirname))), slug)
    ensures !Collect.StartsWithMarkerComment(
              Comment(id, Some(BotLogin(slug)), Some(UpdateComments.DeployInfoMessage(pr, repoFullName, dirname))), slug)
  {
    var fromCollect := Collect.DeployInfoMessage(pr, repoFullName, dirname);
    if EndsWith(fromCollect, CommentMarker) {
      EdgeChars(fromCollect, CommentMarker + "\n", ")");
      EdgeChars(fromCollect, CommentMarker + "\n", CommentMarker);
      assert false;
    }
    var fromUpdate := UpdateComments.DeployInfoMessage(pr, repoFullName, dirname);
    if StartsWith(fromUpdate, CommentMarker) {
      EdgeChars(fromUpdate, Announcement, "\n" + CommentMarker);
      EdgeChars(fromUpdate, CommentMarker, "\n" + CommentMarker);
      assert false;
    }
  }
}

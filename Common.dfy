/** The settings of scripts/common.ts that the comment reconciliation reads,
    the bot login both scripts compare comment authors with, and the pieces
    of the deploy-info message both scripts write alike. */
module Common {

  /** The marker that identifies the deploy-info comment. */
  const CommentMarker: string := "<!-- voiccevox preview-pages info -->"

  /** The published site the previews live under. */
  const PagesUrl: string := "https://voicevox.github.io/preview-pages"

  /** The announcement line of the deploy-info message. */
  const Announcement: string := ":rocket: プレビュー用ページを作成しました :rocket:"

  /** The last path segments of the editor and the Storybook preview. */
  const EditorPath: string := "/editor"
  const StorybookPath: string := "/storybook"

  /** The commit line around the short hash, the head repository and the sha. */
  const CommitOpen: string := "更新時点でのコミットハッシュ：[`"
  const CommitMiddle: string := "`](https://github.com/"
  const CommitPath: string := "/commit/"

  /** The login GitHub gives the app's bot user: its slug followed by `[bot]`. */
  function BotLogin(slug: string): string {
    slug + "[bot]"
  }
}

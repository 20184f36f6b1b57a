/** The remote data client as the pages see it: the rows they write, the
    errors it returns, and the calls they make, recorded as effects. The
    client itself (auth, storage, tables) is not modelled; what it answers is
    an input of each operation. */
module Remote {
  import opened Wrappers

  type Bytes = seq<bv8>

  /** An error returned by a storage upload or a table write. `isErrorInstance`
      records whether the object is an instance of JavaScript's `Error`, which
      decides what the post creator's catch block shows. */
  datatype ClientError = ClientError(message: string, isErrorInstance: bool)

  /** A row of the `posts` table. */
  datatype PostRow = PostRow(
    customerId: string,
    imagePath: string,
    voicePath: Option<string>,
    userPrompt: Option<string>,
    status: string)

  /** A row of the `brand_settings` table as the company-info page upserts it. */
  datatype SettingsRow = SettingsRow(
    customerId: string,
    fullname: string,
    businessName: string,
    website: string,
    serviceArea: string,
    industry: string,
    postStyle: seq<string>)

  /** One call to the client, in the order the page issues it. */
  datatype Effect =
    | GetUser
    | GetClaims
    | Upload(bucket: string, path: string, data: Bytes)
    | Insert(table: string, post: PostRow)
    | Upsert(table: string, settings: SettingsRow, onConflict: string)
    | SelectSingle(table: string, columns: string, keyColumn: string, key: string)

  const PostMediaBucket := "post-media"
  const VoiceNotesBucket := "voice-notes"
  const PostsTable := "posts"
  const BrandSettingsTable := "brand_settings"
  const CustomerInfoTable := "customer_info"
  const CustomerIdColumn := "customer_id"
}

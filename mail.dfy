/** The e-mail records shared by the API routes and the client components. */
module Mail {
  import opened JsText

  /** An attachment as the detail endpoint returns it (the base64 `data` is
      carried as text). */
  datatype Attachment = Attachment(filename: Option<string>, mimeType: Option<string>, data: Option<string>)

  /** One message of the inbox list. `attachments` is absent until the full
      message has been fetched. */
  datatype Email = Email(
    id: string,
    sender: string,
    subject: string,
    preview: string,
    content: string,
    timestamp: string,
    hasAttachment: bool,
    isStarred: bool,
    isUnread: bool,
    category: string,
    attachments: Option<seq<Attachment>>)

  /** The fields of the detail endpoint's JSON that the clients read; each may
      be missing. */
  datatype Details = Details(body: Option<string>, from: Option<string>, attachments: Option<seq<Attachment>>)
}

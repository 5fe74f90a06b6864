/** What the Rocket handlers answer with. */
module Http {
  datatype Status = OK | Created | BadRequest | Unauthorized | NotFound | InternalServerError

  /**
   * A page handler's reply: a rendered template, a redirect, or a panic
   * (an `unwrap`/`expect` on an error), which Rocket answers with a 500.
   */
  datatype Reply = Page(template: string) | Redirect(to: string) | Panicked
}

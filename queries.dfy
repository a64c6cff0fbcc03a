/**
 * The element patterns the generator queries for.  Every pattern in the
 * repository constrains only the `element` name, so a pattern is that name.
 */
module Queries {

  const HttpRequestQuery: string := "httpRequest"

  const HttpResponseQuery: string := "httpResponse"
}

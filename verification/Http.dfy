/** The HTTP status codes the controllers answer with. */
module Http {

  datatype Status = OK | CREATED | NO_CONTENT | BAD_REQUEST | NOT_FOUND
}

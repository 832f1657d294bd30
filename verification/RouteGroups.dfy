/** The route groups that limits are kept by (meritmolt/ratelimit.py). */
module RouteGroups {
  datatype RouteGroup = AuthLogin | AuthRefresh | Writes | Reads | Exempt
}

/** The stable codes of provider failures. */
module ProviderErrors {
  datatype Code =
    | VALIDATION | AUTH | FORBIDDEN | NOT_FOUND | CONFLICT | TIMEOUT | SIDE_EFFECT_UNKNOWN
    | UNAVAILABLE | NOT_IMPLEMENTED | PROVIDER_ERROR | INTERNAL | UNKNOWN

  const DEFAULT_RETRYABLE_CODES: set<Code> := {UNAVAILABLE, PROVIDER_ERROR}

  const NEVER_RETRY_CODES: set<Code> :=
    {VALIDATION, AUTH, FORBIDDEN, NOT_FOUND, CONFLICT, TIMEOUT, SIDE_EFFECT_UNKNOWN,
     NOT_IMPLEMENTED, INTERNAL, UNKNOWN}
}

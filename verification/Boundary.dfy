/** Boundary key policy (pmqa/security/boundary_policy.py), over ASCII keys. */
module Boundary {
  predicate IsLower(c: char) {
    'a' <= c <= 'z'
  }

  function FoldCase(c: char): char {
    if 'A' <= c <= 'Z' then c - 'A' + 'a' else c
  }

  predicate IsKeyChar(c: char) {
    IsLower(c) || '0' <= c <= '9'
  }

  /** Lower case, every run of other characters one underscore, none in front. */
  function Collapse(s: string): (r: string)
    ensures r != [] ==> r[0] != '_'
    ensures forall i :: 0 <= i < |r| ==> IsKeyChar(r[i]) || r[i] == '_'
  {
    if s == [] then ""
    else
      var r, c := Collapse(s[..|s| - 1]), FoldCase(s[|s| - 1]);
      if IsKeyChar(c) then r + [c]
      else if r != [] && r[|r| - 1] != '_' then r + "_"
      else r
  }

  function NormalizeKey(s: string): string {
    var r := Collapse(s);
    if r != [] && r[|r| - 1] == '_' then r[..|r| - 1] else r
  }

  const COMMON_PROHIBITED_KEYS: set<string> := {
    "access_token", "api_key", "apikey", "authorization", "browser", "browser_context", "browser_state",
    "cookie", "cookies", "credential", "credentials", "dom", "html", "passwd", "password", "playwright",
    "raw_dom", "refresh_token", "runtime", "screenshot", "secret", "session", "session_id", "storage_state",
    "token", "tokens"
  }

  const WORKFLOW_PROHIBITED_KEYS: set<string> :=
    COMMON_PROHIBITED_KEYS + {"connection", "llm_client", "locator", "provider_instance"}

  predicate IsProhibited(key: string) {
    NormalizeKey(key) in WORKFLOW_PROHIBITED_KEYS
  }

  predicate IsProhibitedForReasoning(key: string) {
    NormalizeKey(key) in COMMON_PROHIBITED_KEYS
  }
}

/** Shared vocabulary: record ids, nullable attributes, request attribute hashes
    and Rails' notion of a blank string. */
module Base {

  /** Primary keys are the database's auto-increment integers. */
  type Id = nat

  /** A nullable column or association. */
  datatype Option<+T> = None | Some(value: T)

  /** Strictly increasing keys: the order of a primary-key scan. */
  predicate Ascending(ids: seq<Id>) {
    forall i, j :: 0 <= i < j < |ids| ==> ids[i] < ids[j]
  }

  /** The nested hash of a request parameter such as `params[:project]`,
      restricted to string values. */
  type Attrs = map<string, string>

  /** The characters Ruby's `[[:space:]]` matches in a UTF-8 string. */
  predicate IsSpace(c: char) {
    var n := c as int;
    (9 <= n <= 13) || n == 32 || n == 0x85 || n == 0xA0 || n == 0x1680
    || (0x2000 <= n <= 0x200A) || n == 0x2028 || n == 0x2029 || n == 0x202F
    || n == 0x205F || n == 0x3000
  }

  /** `blank?` on a nullable string attribute: nil, empty, or only white space.
      This is what a `presence: true` validation rejects. */
  predicate Blank(s: Option<string>) {
    s.None? || forall i :: 0 <= i < |s.value| ==> IsSpace(s.value[i])
  }
}

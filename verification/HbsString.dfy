/** Strings as the hash map sees them (src/handlebars_string.c). */
module HbsString {

  /** Character content together with the hash that hbs_str_hash caches for it. */
  datatype HString = HString(val: string, hash: nat)

  /** handlebars_string_eq never looks at the bytes: it compares length and hash only. */
  predicate Eq(a: HString, b: HString) {
    |a.val| == |b.val| && a.hash == b.hash
  }
}

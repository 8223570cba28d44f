/** The canonical category order. A smaller rank is more severe, and every
    category the catalogue does not list shares the last rank. */
module Catalog {

  datatype Category =
    | Malware | Phishing | C2 | Cryptomining | NewlyRegistered | Ads | Adult | Gambling
    | Unlisted(name: string)

  predicate Known(category: Category) {
    !category.Unlisted?
  }

  function RankOf(category: Category): (r: nat) {
    match category
    case Malware => 0
    case Phishing => 1
    case C2 => 2
    case Cryptomining => 3
    case NewlyRegistered => 4
    case Ads => 5
    case Adult => 6
    case Gambling => 7
    case Unlisted(_) => 8
  }

  /** The length of the identifier a category is stored under, which is charged for. */
  function IdLength(category: Category): nat {
    match category
    case Malware => 7
    case Phishing => 8
    case C2 => 2
    case Cryptomining => 12
    case NewlyRegistered => 16
    case Ads => 3
    case Adult => 5
    case Gambling => 8
    case Unlisted(name) => |name|
  }

  /** Listed categories never tie. */
  lemma RankIsInjective(a: Category, b: Category)
    requires Known(a) && RankOf(a) == RankOf(b)
    ensures a == b
  {
  }
}

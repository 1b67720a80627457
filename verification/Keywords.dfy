/** The words of the controlled language (hotelcontrols/compiler/grammar.py). A token is a word of
    the language when it is spelled like one, whatever its case. */
module Keywords {
  import opened Texts
  import opened Tokens

  datatype Keyword =
    | Other
    | NoWord | ByWord | OfWord | ToWord | OrWord | IfWord | IsWord
    | AtWord | InWord | AllWord | MayWord | TheWord | SetWord | AndWord
    | NotWord | OneWord | PerWord | EachWord | MustWord | FromWord | MostWord
    | LessWord | ThanWord | MoreWord | HaveWord | TrueWord | EveryWord | WhereWord
    | HotelWord | LeastWord | FalseWord | UnlessWord | ExceptWord | AbsentWord | WithinWord
    | ExistsWord | BookedWord | JoiningWord | ShowingWord | MissingWord | MatchesWord | SatisfyWord
    | SettingWord | PresentWord | GreaterWord | CreatedWord | StayingWord | ResolvedWord | MatchingWord
    | ArrivingWord | CheckingWord | DepartingWord | CancelledWord | CollectingWord | UnresolvedWord | OverlappingWord

  function Spelling(k: Keyword): string
  {
    match k
    case Other => ""
    case NoWord => "no"
    case ByWord => "by"
    case OfWord => "of"
    case ToWord => "to"
    case OrWord => "or"
    case IfWord => "if"
    case IsWord => "is"
    case AtWord => "at"
    case InWord => "in"
    case AllWord => "all"
    case MayWord => "may"
    case TheWord => "the"
    case SetWord => "set"
    case AndWord => "and"
    case NotWord => "not"
    case OneWord => "one"
    case PerWord => "per"
    case EachWord => "each"
    case MustWord => "must"
    case FromWord => "from"
    case MostWord => "most"
    case LessWord => "less"
    case ThanWord => "than"
    case MoreWord => "more"
    case HaveWord => "have"
    case TrueWord => "true"
    case EveryWord => "every"
    case WhereWord => "where"
    case HotelWord => "hotel"
    case LeastWord => "least"
    case FalseWord => "false"
    case UnlessWord => "unless"
    case ExceptWord => "except"
    case AbsentWord => "absent"
    case WithinWord => "within"
    case ExistsWord => "exists"
    case BookedWord => "booked"
    case JoiningWord => "joining"
    case ShowingWord => "showing"
    case MissingWord => "missing"
    case MatchesWord => "matches"
    case SatisfyWord => "satisfy"
    case SettingWord => "setting"
    case PresentWord => "present"
    case GreaterWord => "greater"
    case CreatedWord => "created"
    case StayingWord => "staying"
    case ResolvedWord => "resolved"
    case MatchingWord => "matching"
    case ArrivingWord => "arriving"
    case CheckingWord => "checking"
    case DepartingWord => "departing"
    case CancelledWord => "cancelled"
    case CollectingWord => "collecting"
    case UnresolvedWord => "unresolved"
    case OverlappingWord => "overlapping"
  }

  // ------------------------------------------------------------------ which word a text could be
  /** The one word of this length that starts with these letters: no two words share both. */
  function Candidate(length: nat, a: char, b: char, c: char): Keyword
  {
    match length
    case 2 => Candidate2(a, b)
    case 3 => Candidate3(a, b, c)
    case 4 => Candidate4(a, b, c)
    case 5 => Candidate5(a, b, c)
    case 6 => Candidate6(a, b, c)
    case 7 => Candidate7(a, b, c)
    case 8 => Candidate8(a, b, c)
    case 9 => Candidate9(a, b, c)
    case 10 => Candidate10(a, b, c)
    case 11 => Candidate11(a, b, c)
    case _ => Other
  }

  function Candidate2(a: char, b: char): Keyword
  {
    if a == 'n' && b == 'o' then NoWord
    else if a == 'b' && b == 'y' then ByWord
    else if a == 'o' && b == 'f' then OfWord
    else if a == 't' && b == 'o' then ToWord
    else if a == 'o' && b == 'r' then OrWord
    else if a == 'i' && b == 'f' then IfWord
    else if a == 'i' && b == 's' then IsWord
    else if a == 'a' && b == 't' then AtWord
    else if a == 'i' && b == 'n' then InWord
    else Other
  }

  function Candidate3(a: char, b: char, c: char): Keyword
  {
    if a == 'a' && b == 'l' && c == 'l' then AllWord
    else if a == 'm' && b == 'a' && c == 'y' then MayWord
    else if a == 't' && b == 'h' && c == 'e' then TheWord
    else if a == 's' && b == 'e' && c == 't' then SetWord
    else if a == 'a' && b == 'n' && c == 'd' then AndWord
    else if a == 'n' && b == 'o' && c == 't' then NotWord
    else if a == 'o' && b == 'n' && c == 'e' then OneWord
    else if a == 'p' && b == 'e' && c == 'r' then PerWord
    else Other
  }

  function Candidate4(a: char, b: char, c: char): Keyword
  {
    if a == 'e' && b == 'a' && c == 'c' then EachWord
    else if a == 'm' && b == 'u' && c == 's' then MustWord
    else if a == 'f' && b == 'r' && c == 'o' then FromWord
    else if a == 'm' && b == 'o' && c == 's' then MostWord
    else if a == 'l' && b == 'e' && c == 's' then LessWord
    else if a == 't' && b == 'h' && c == 'a' then ThanWord
    else if a == 'm' && b == 'o' && c == 'r' then MoreWord
    else if a == 'h' && b == 'a' && c == 'v' then HaveWord
    else if a == 't' && b == 'r' && c == 'u' then TrueWord
    else Other
  }

  function Candidate5(a: char, b: char, c: char): Keyword
  {
    if a == 'e' && b == 'v' && c == 'e' then EveryWord
    else if a == 'w' && b == 'h' && c == 'e' then WhereWord
    else if a == 'h' && b == 'o' && c == 't' then HotelWord
    else if a == 'l' && b == 'e' && c == 'a' then LeastWord
    else if a == 'f' && b == 'a' && c == 'l' then FalseWord
    else Other
  }

  function Candidate6(a: char, b: char, c: char): Keyword
  {
    if a == 'u' && b == 'n' && c == 'l' then UnlessWord
    else if a == 'e' && b == 'x' && c == 'c' then ExceptWord
    else if a == 'a' && b == 'b' && c == 's' then AbsentWord
    else if a == 'w' && b == 'i' && c == 't' then WithinWord
    else if a == 'e' && b == 'x' && c == 'i' then ExistsWord
    else if a == 'b' && b == 'o' && c == 'o' then BookedWord
    else Other
  }

  function Candidate7(a: char, b: char, c: char): Keyword
  {
    if a == 'j' && b == 'o' && c == 'i' then JoiningWord
    else if a == 's' && b == 'h' && c == 'o' then ShowingWord
    else if a == 'm' && b == 'i' && c == 's' then MissingWord
    else if a == 'm' && b == 'a' && c == 't' then MatchesWord
    else if a == 's' && b == 'a' && c == 't' then SatisfyWord
    else if a == 's' && b == 'e' && c == 't' then SettingWord
    else if a == 'p' && b == 'r' && c == 'e' then PresentWord
    else if a == 'g' && b == 'r' && c == 'e' then GreaterWord
    else if a == 'c' && b == 'r' && c == 'e' then CreatedWord
    else if a == 's' && b == 't' && c == 'a' then StayingWord
    else Other
  }

  function Candidate8(a: char, b: char, c: char): Keyword
  {
    if a == 'r' && b == 'e' && c == 's' then ResolvedWord
    else if a == 'm' && b == 'a' && c == 't' then MatchingWord
    else if a == 'a' && b == 'r' && c == 'r' then ArrivingWord
    else if a == 'c' && b == 'h' && c == 'e' then CheckingWord
    else Other
  }

  function Candidate9(a: char, b: char, c: char): Keyword
  {
    if a == 'd' && b == 'e' && c == 'p' then DepartingWord
    else if a == 'c' && b == 'a' && c == 'n' then CancelledWord
    else Other
  }

  function Candidate10(a: char, b: char, c: char): Keyword
  {
    if a == 'c' && b == 'o' && c == 'l' then CollectingWord
    else if a == 'u' && b == 'n' && c == 'r' then UnresolvedWord
    else Other
  }

  function Candidate11(a: char, b: char, c: char): Keyword
  {
    if a == 'o' && b == 'v' && c == 'e' then OverlappingWord
    else Other
  }

  function Guess(w: string): Keyword
  {
    if |w| < 2 then Other else Candidate(|w|, w[0], w[1], if |w| > 2 then w[2] else ' ')
  }

  /** The word a token is, whatever its case; `Other` when it is none. */
  function KeywordOf(token: string): Keyword
  {
    var w := Lower(token);
    var k := Guess(w);
    if k != Other && Spelling(k) == w then k else Other
  }

  predicate Letters(s: string)
  {
    forall i :: 0 <= i < |s| ==> 'a' <= s[i] <= 'z'
  }

  /** A word is made of letters, and its first letters lead back to it. */
  predicate WellSpelled(k: Keyword)
  {
    Guess(Spelling(k)) == k && Letters(Spelling(k)) && |Spelling(k)| > 1
  }

  lemma Spelled1(k: Keyword)
    requires k in {NoWord, ByWord, OfWord, ToWord, OrWord}
    ensures WellSpelled(k)
  {
    var s := Spelling(k);
    match k {
      case NoWord => assert s == "no" && |s| == 2;
      case ByWord => assert s == "by" && |s| == 2;
      case OfWord => assert s == "of" && |s| == 2;
      case ToWord => assert s == "to" && |s| == 2;
      case OrWord => assert s == "or" && |s| == 2;
      case _ =>
    }
  }

  lemma Spelled2(k: Keyword)
    requires k in {IfWord, IsWord, AtWord, InWord}
    ensures WellSpelled(k)
  {
    var s := Spelling(k);
    match k {
      case IfWord => assert s == "if" && |s| == 2;
      case IsWord => assert s == "is" && |s| == 2;
      case AtWord => assert s == "at" && |s| == 2;
      case InWord => assert s == "in" && |s| == 2;
      case _ =>
    }
  }

  lemma Spelled3(k: Keyword)
    requires k in {AllWord, MayWord, TheWord, SetWord, AndWord}
    ensures WellSpelled(k)
  {
    var s := Spelling(k);
    match k {
      case AllWord => assert s == "all" && |s| == 3;
      case MayWord => assert s == "may" && |s| == 3;
      case TheWord => assert s == "the" && |s| == 3;
      case SetWord => assert s == "set" && |s| == 3;
      case AndWord => assert s == "and" && |s| == 3;
      case _ =>
    }
  }

  lemma Spelled4(k: Keyword)
    requires k in {NotWord, OneWord, PerWord}
    ensures WellSpelled(k)
  {
    var s := Spelling(k);
    match k {
      case NotWord => assert s == "not" && |s| == 3;
      case OneWord => assert s == "one" && |s| == 3;
      case PerWord => assert s == "per" && |s| == 3;
      case _ =>
    }
  }

  lemma Spelled5(k: Keyword)
    requires k in {EachWord, MustWord, FromWord, MostWord, LessWord}
    ensures WellSpelled(k)
  {
    var s := Spelling(k);
    match k {
      case EachWord => assert s == "each" && |s| == 4;
      case MustWord => assert s == "must" && |s| == 4;
      case FromWord => assert s == "from" && |s| == 4;
      case MostWord => assert s == "most" && |s| == 4;
      case LessWord => assert s == "less" && |s| == 4;
      case _ =>
    }
  }

  lemma Spelled6(k: Keyword)
    requires k in {ThanWord, MoreWord, HaveWord, TrueWord}
    ensures WellSpelled(k)
  {
    var s := Spelling(k);
    match k {
      case ThanWord => assert s == "than" && |s| == 4;
      case MoreWord => assert s == "more" && |s| == 4;
      case HaveWord => assert s == "have" && |s| == 4;
      case TrueWord => assert s == "true" && |s| == 4;
      case _ =>
    }
  }

  lemma Spelled7(k: Keyword)
    requires k in {EveryWord, WhereWord, HotelWord, LeastWord, FalseWord}
    ensures WellSpelled(k)
  {
    var s := Spelling(k);
    match k {
      case EveryWord => assert s == "every" && |s| == 5;
      case WhereWord => assert s == "where" && |s| == 5;
      case HotelWord => assert s == "hotel" && |s| == 5;
      case LeastWord => assert s == "least" && |s| == 5;
      case FalseWord => assert s == "false" && |s| == 5;
      case _ =>
    }
  }

  lemma Spelled8(k: Keyword)
    requires k in {UnlessWord, ExceptWord, AbsentWord, WithinWord, ExistsWord}
    ensures WellSpelled(k)
  {
    var s := Spelling(k);
    match k {
      case UnlessWord => assert s == "unless" && |s| == 6;
      case ExceptWord => assert s == "except" && |s| == 6;
      case AbsentWord => assert s == "absent" && |s| == 6;
      case WithinWord => assert s == "within" && |s| == 6;
      case ExistsWord => assert s == "exists" && |s| == 6;
      case _ =>
    }
  }

  lemma Spelled9(k: Keyword)
    requires k in {BookedWord}
    ensures WellSpelled(k)
  {
    var s := Spelling(k);
    match k {
      case BookedWord => assert s == "booked" && |s| == 6;
      case _ =>
    }
  }

  lemma Spelled10(k: Keyword)
    requires k in {JoiningWord, ShowingWord, MissingWord, MatchesWord, SatisfyWord}
    ensures WellSpelled(k)
  {
    var s := Spelling(k);
    match k {
      case JoiningWord => assert s == "joining" && |s| == 7;
      case ShowingWord => assert s == "showing" && |s| == 7;
      case MissingWord => assert s == "missing" && |s| == 7;
      case MatchesWord => assert s == "matches" && |s| == 7;
      case SatisfyWord => assert s == "satisfy" && |s| == 7;
      case _ =>
    }
  }

  lemma Spelled11(k: Keyword)
    requires k in {SettingWord, PresentWord, GreaterWord, CreatedWord, StayingWord}
    ensures WellSpelled(k)
  {
    var s := Spelling(k);
    match k {
      case SettingWord => assert s == "setting" && |s| == 7;
      case PresentWord => assert s == "present" && |s| == 7;
      case GreaterWord => assert s == "greater" && |s| == 7;
      case CreatedWord => assert s == "created" && |s| == 7;
      case StayingWord => assert s == "staying" && |s| == 7;
      case _ =>
    }
  }

  lemma Spelled12(k: Keyword)
    requires k in {ResolvedWord, MatchingWord, ArrivingWord, CheckingWord}
    ensures WellSpelled(k)
  {
    var s := Spelling(k);
    match k {
      case ResolvedWord => assert s == "resolved" && |s| == 8;
      case MatchingWord => assert s == "matching" && |s| == 8;
      case ArrivingWord => assert s == "arriving" && |s| == 8;
      case CheckingWord => assert s == "checking" && |s| == 8;
      case _ =>
    }
  }

  lemma Spelled13(k: Keyword)
    requires k in {DepartingWord, CancelledWord, CollectingWord, UnresolvedWord, OverlappingWord}
    ensures WellSpelled(k)
  {
    var s := Spelling(k);
    match k {
      case DepartingWord => assert s == "departing" && |s| == 9;
      case CancelledWord => assert s == "cancelled" && |s| == 9;
      case CollectingWord => assert s == "collecting" && |s| == 10;
      case UnresolvedWord => assert s == "unresolved" && |s| == 10;
      case OverlappingWord => assert s == "overlapping" && |s| == 11;
      case _ =>
    }
  }

  lemma EveryWordIsWellSpelled(k: Keyword)
    requires k != Other
    ensures WellSpelled(k)
  {
    hide WellSpelled;
    match k {
      case NoWord => Spelled1(k);
      case ByWord => Spelled1(k);
      case OfWord => Spelled1(k);
      case ToWord => Spelled1(k);
      case OrWord => Spelled1(k);
      case IfWord => Spelled2(k);
      case IsWord => Spelled2(k);
      case AtWord => Spelled2(k);
      case InWord => Spelled2(k);
      case AllWord => Spelled3(k);
      case MayWord => Spelled3(k);
      case TheWord => Spelled3(k);
      case SetWord => Spelled3(k);
      case AndWord => Spelled3(k);
      case NotWord => Spelled4(k);
      case OneWord => Spelled4(k);
      case PerWord => Spelled4(k);
      case EachWord => Spelled5(k);
      case MustWord => Spelled5(k);
      case FromWord => Spelled5(k);
      case MostWord => Spelled5(k);
      case LessWord => Spelled5(k);
      case ThanWord => Spelled6(k);
      case MoreWord => Spelled6(k);
      case HaveWord => Spelled6(k);
      case TrueWord => Spelled6(k);
      case EveryWord => Spelled7(k);
      case WhereWord => Spelled7(k);
      case HotelWord => Spelled7(k);
      case LeastWord => Spelled7(k);
      case FalseWord => Spelled7(k);
      case UnlessWord => Spelled8(k);
      case ExceptWord => Spelled8(k);
      case AbsentWord => Spelled8(k);
      case WithinWord => Spelled8(k);
      case ExistsWord => Spelled8(k);
      case BookedWord => Spelled9(k);
      case JoiningWord => Spelled10(k);
      case ShowingWord => Spelled10(k);
      case MissingWord => Spelled10(k);
      case MatchesWord => Spelled10(k);
      case SatisfyWord => Spelled10(k);
      case SettingWord => Spelled11(k);
      case PresentWord => Spelled11(k);
      case GreaterWord => Spelled11(k);
      case CreatedWord => Spelled11(k);
      case StayingWord => Spelled11(k);
      case ResolvedWord => Spelled12(k);
      case MatchingWord => Spelled12(k);
      case ArrivingWord => Spelled12(k);
      case CheckingWord => Spelled12(k);
      case DepartingWord => Spelled13(k);
      case CancelledWord => Spelled13(k);
      case CollectingWord => Spelled13(k);
      case UnresolvedWord => Spelled13(k);
      case OverlappingWord => Spelled13(k);
    }
  }

  // ------------------------------------------------------------------ what follows for tokens
  /** A keyword's token is its spelling, in whatever case, and nothing but letters. */
  lemma KeywordIsSpelling(token: string)
    ensures KeywordOf(token) != Other ==> Lower(token) == Spelling(KeywordOf(token)) && Letters(Lower(token))
  {
    hide Spelling, Guess;
    if KeywordOf(token) != Other {
      EveryWordIsWellSpelled(KeywordOf(token));
    }
  }

  /** Every keyword is read as itself. */
  lemma Spelled(k: Keyword)
    requires k != Other
    ensures KeywordOf(Spelling(k)) == k && Letters(Spelling(k)) && Spelling(k) != ""
  {
    hide Spelling, Guess;
    EveryWordIsWellSpelled(k);
    assert Lower(Spelling(k)) == Spelling(k);
  }

  /** A token with a character no keyword has is no keyword. */
  lemma NotKeyword(token: string, i: nat)
    requires i < |token| && !('a' <= LowerChar(token[i]) <= 'z')
    ensures KeywordOf(token) == Other
  {
    hide Spelling, Guess;
    KeywordIsSpelling(token);
    assert Lower(token)[i] == LowerChar(token[i]);
  }

  lemma SpellingIsLexable(k: Keyword)
    requires k != Other
    ensures Lexable(Spelling(k))
  {
    hide Spelling, Guess;
    Spelled(k);
  }
}

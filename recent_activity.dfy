/** The "Activité récente" card of the dashboard
    (src/components/dashboard/RecentActivity.tsx): each entry shows the author's
    initials (`Text.Initials`) and a badge whose variant follows the entry's type. */
module RecentActivity {
  import opened Collections
  import opened Text

  datatype ActivityType = Success | Warning | Error

  /** The string the source stores for an activity type. */
  function TypeName(t: ActivityType): string
  {
    match t
    case Success => "success"
    case Warning => "warning"
    case Error => "error"
  }

  /** The time stamp of an entry is left out: the sample entries are dated
      relative to the clock. */
  datatype ActivityItem = ActivityItem(id: string, user: string, action: string, target: string, kind: ActivityType)

  const TypeNames: seq<string> := ["success", "warning", "error"]

  /** What the card shows of one entry: the avatar text, and the badge with its
      variant and its text. */
  datatype EntryView = EntryView(avatar: string, badgeVariant: string, badgeText: string)

  /** One row of the card: the author's initials in the avatar, the action in a
      badge whose variant follows the entry's type. */
  function View(item: ActivityItem): (v: EntryView)
    ensures v.badgeText == item.action
    ensures item.kind == Success ==> v.badgeVariant == "default"
    ensures item.kind == Warning ==> v.badgeVariant == "secondary"
    ensures item.kind == Error ==> v.badgeVariant == "destructive"
    ensures v.avatar == ToUpper(WordStarts(item.user))
    ensures |v.avatar| == |Filter(Split(item.user), NonEmptyWord)|
    ensures forall i :: 0 <= i < |v.avatar| ==>
      v.avatar[i] == UpperChar(Filter(Split(item.user), NonEmptyWord)[i][0])
    ensures forall i :: 0 <= i < |v.avatar| ==> !IsLowerAscii(v.avatar[i])
  {
    EntryView(Initials(item.user), BadgeVariant(TypeName(item.kind)), item.action)
  }

  /** `getBadgeVariant(type)`. */
  function BadgeVariant(typeName: string): (variant: string)
    ensures typeName !in TypeNames ==> variant == "outline"
    ensures typeName in TypeNames ==> variant != "outline" && variant in ["default", "secondary", "destructive"]
  {
    match typeName
    case "success" => "default"
    case "warning" => "secondary"
    case "error" => "destructive"
    case _ => "outline"
  }

  /** Every activity type has its own badge variant, none of them the fallback
      "outline": a success is "default", a warning "secondary", an error
      "destructive". */
  lemma BadgeVariantsOfTypes(a: ActivityType, b: ActivityType)
    ensures BadgeVariant(TypeName(a)) != "outline"
    ensures BadgeVariant(TypeName(a)) == BadgeVariant(TypeName(b)) <==> a == b
    ensures BadgeVariant(TypeName(Success)) == "default"
    ensures BadgeVariant(TypeName(Warning)) == "secondary"
    ensures BadgeVariant(TypeName(Error)) == "destructive"
  {
  }
}

# Admin dashboard: sidebar, user management, exception log, recent activity

A Dafny model of the logic of a React administration dashboard.

- **Sidebar** (`sidebar.dfy`):
  - the static two-level menu;
  - the active-route rules. An item is active when its own route or one of its children's routes is shown. A group is active when one of its items is.
  - the expansion state, modelled as class `SidebarState` with the lists `expandedGroups` and `expandedMenus` that the toggles update;
  - the two click handlers: a group header while the sidebar is collapsed, and an item row with or without children.
- **Users page** (`users.dfy`):
  - the search over name and e-mail, ignoring case;
  - the role and status filters;
  - the status tallies of the statistics cards;
  - the status badge texts, the role colours, and the suspend/activate action.
- **Exception log** (`exceptions.dfy`):
  - the search over title and module;
  - the severity and status filters;
  - the counts, the alert banner for critical exceptions with its French plural agreement, and the badge texts.
- **Recent activity card** (`recent_activity.dfy`): the badge variant per activity type.
- **Shared string helpers** (`text.dfy`): `getInitials` is written identically in two files and is defined once as `Text.Initials`. The module also holds JavaScript `split(" ")`, ASCII `toLowerCase`/`toUpperCase`, substring `includes` and decimal rendering of counts.
- **Collections** (`collections.dfy`): the order-preserving `Array.prototype.filter` that every `.filter` of the source goes through.

### Expansion lists are ordered

The expansion lists are ordered arrays, not sets: a toggle removes every copy of a present label, or appends an absent one at the end. So toggling twice does not always give back the same list:

- from a closed label, a double toggle restores the list exactly (`ToggleTwiceFromAbsent`);
- from an open label, it restores the same set of labels with this one moved to the end (`ToggleTwiceFromPresent`).

## Model

| member | source | states |
|---|---|---|
| Collections.Filter | src/pages/Users.tsx:117-124 | The result holds exactly the elements of the input that pass the test, each element of it passes, it is never longer than the input, and it equals the input when everything passes. |
| Collections.FilterIsSubsequence | src/pages/Users.tsx:117-124 | The survivors keep their original order: the result is a subsequence of the input. |
| Collections.FilterMultiset | src/pages/Users.tsx:117-124 | A survivor keeps every copy it had; anything else keeps none. |
| Sidebar.MenuLayout | src/components/layout/AdminSidebar.tsx:48-104 | The `Menu` constant has the four groups in order, with 2, 1, 2 and 3 items. The only items with children are "Utilisateurs", "Système" and "Communications", with three children each. |
| Sidebar.IsActive | src/components/layout/AdminSidebar.tsx:129 | A path is active iff the current path has the same length and the same character at every position. |
| Sidebar.IsMenuActive | src/components/layout/AdminSidebar.tsx:141-147 | An item is active iff its own URL is the current path, or some child's URL is. |
| Sidebar.SomeChildActive | src/components/layout/AdminSidebar.tsx:143-145 | True iff some child's URL equals the current path. |
| Sidebar.IsGroupActive | src/components/layout/AdminSidebar.tsx:131-139 | The inline rule of the source holds iff some item of the group is active by the item rule. |
| Sidebar.NoPrefixActivation | src/components/layout/AdminSidebar.tsx:129 | Activity is exact equality: a longer route below a path never activates that path. |
| Sidebar.ChildlessMenuActive | src/components/layout/AdminSidebar.tsx:141-147 | An item without children is active iff its own URL is shown. |
| Sidebar.ChildActivatesParent | src/components/layout/AdminSidebar.tsx:143-145 | Showing any child's route makes its parent item active. |
| Sidebar.DashboardRouteHighlights | src/components/layout/AdminSidebar.tsx:49-55 | On "/", the "Dashboard" item is active, "Activité" is not, and their group "Vue d'ensemble" is. |
| Sidebar.DashboardRouteLeavesUserGroup | src/components/layout/AdminSidebar.tsx:56-70 | On "/", the "Gestion des utilisateurs" group is not active. |
| Sidebar.DashboardRouteLeavesAdministrationGroup | src/components/layout/AdminSidebar.tsx:71-95 | On "/", the "Administration" group is not active. |
| Sidebar.DashboardRouteLeavesMonitoringGroup | src/components/layout/AdminSidebar.tsx:96-103 | On "/", the "Monitoring" group is not active. |
| Sidebar.VerificationsRouteHighlights | src/components/layout/AdminSidebar.tsx:59-68 | On "/users/verifications", "Utilisateurs" and its group are highlighted through a child, while "/users" itself is not active. |
| Sidebar.Differs | src/components/layout/AdminSidebar.tsx:116 | The removal callback `g => g !== label` rejects the label and keeps every other one. |
| Sidebar.Toggle | src/components/layout/AdminSidebar.tsx:113-127 | An absent label is appended. A present label is removed with all its copies, and the rest keep their order and multiplicity. The label is in the result iff it was not in the list, and every other label's membership is unchanged. |
| Sidebar.ToggleTwiceFromAbsent | src/components/layout/AdminSidebar.tsx:113-119 | Opening then closing a closed label restores the list exactly. |
| Sidebar.ToggleTwiceFromPresent | src/components/layout/AdminSidebar.tsx:113-119 | Closing then reopening an open label gives the same labels, with that label moved to the end. |
| Sidebar.ToggleKeepsNoDuplicates | src/components/layout/AdminSidebar.tsx:113-127 | A toggle of a list without duplicates gives a list without duplicates. |
| Sidebar.SidebarState.constructor | src/components/layout/AdminSidebar.tsx:110-111 | Initially only "Vue d'ensemble" is expanded and no menu is expanded. So, while expanded, only that group shows its items, and no item shows its children. Neither list has duplicates. |
| Sidebar.SidebarState.ToggleGroup | src/components/layout/AdminSidebar.tsx:113-119 | The group list becomes the toggle of the old list, the menu list is unchanged, and "no duplicates" is preserved. |
| Sidebar.SidebarState.ToggleMenu | src/components/layout/AdminSidebar.tsx:121-127 | The menu list becomes the toggle of the old list, the group list is unchanged, and "no duplicates" is preserved. |
| Sidebar.SidebarState.ClickGroupHeader | src/components/layout/AdminSidebar.tsx:170-201 | While collapsed, a click changes nothing. Otherwise it toggles the group and flips whether the group's items are shown. |
| Sidebar.SidebarState.ClickItem | src/components/layout/AdminSidebar.tsx:205-250 | Only an item with children reacts to a click. It toggles the item and, in any group whose items are shown, flips whether its children are shown. The group list is untouched. |
| Sidebar.SidebarState.GroupItemsShown | src/components/layout/AdminSidebar.tsx:170-201 | A group's items are never shown while the sidebar is collapsed. Otherwise they are shown iff the group's label is in the expanded-groups list. |
| Sidebar.SidebarState.ChildrenShown | src/components/layout/AdminSidebar.tsx:201-250 | Children are shown only inside a group whose items are shown: never while collapsed, never for a childless item. Within a shown group, an item with children shows them iff its title is in the expanded-menus list. |
| Sidebar.HasChildren | src/components/layout/AdminSidebar.tsx:205 | True iff the item has at least one child. |
| Text.ToLower | src/pages/Users.tsx:118-119 | Same length. Every character is mapped by the ASCII lower-case map. |
| Text.ToLowerIdempotent | src/pages/Users.tsx:118-119 | Lower-casing twice is the same as lower-casing once. |
| Text.ToUpper | src/pages/Users.tsx:114 | Same length. Every character is mapped by the ASCII upper-case map. |
| Text.ToUpperHasNoLowercase | src/pages/Users.tsx:114 | An upper-cased string contains no lower-case ASCII letter. |
| Text.Includes | src/pages/Users.tsx:118-119 | True iff the needle occurs at some position of the haystack. The empty needle is always found. |
| Text.IncludesIgnoringCase | src/pages/Exceptions.tsx:116-117 | True iff the lower-cased needle occurs in the lower-cased haystack. |
| Text.IncludesItself | src/pages/Users.tsx:118-119 | Every string includes itself. |
| Text.Split | src/pages/Users.tsx:111 | `split(" ")` always yields at least one word. |
| Text.SplitJoinRoundTrip | src/pages/Users.tsx:111 | Joining the words of `split(" ")` with spaces gives back the string. |
| Text.SplitWordsHaveNoSpaces | src/pages/Users.tsx:111 | No word of `split(" ")` contains a space. |
| Text.FirstChars | src/pages/Users.tsx:112-113 | `.map(n => n[0]).join("")` has no more characters than there are words. It is empty when every word is. Each character is the first character of some non-empty word. |
| Text.FirstCharsOfSplit | src/pages/Users.tsx:110-113 | Taking `n[0]` of every word and joining gives the characters that start a word, that is, those after a space or at the start. |
| Text.FirstCharsOfNonEmptyWords | src/pages/Users.tsx:112-113 | Empty words contribute nothing. The joined first characters are exactly those of the non-empty words, in order. |
| Text.Initials | src/pages/Users.tsx:109-115 | `getInitials` is the upper-cased word-start characters. It has one character per non-empty word, each the upper-cased first character of that word, and no lower-case letter. |
| Text.InitialsOfMarieDubois | src/pages/Users.tsx:109-115 | "Marie Dubois" gives "MD". |
| Text.InitialsOfAdminSystem | src/components/dashboard/RecentActivity.tsx:73-79 | "Admin System" gives "AS". |
| Text.Decimal | src/pages/Exceptions.tsx:154 | The rendering of a count is a non-empty string of digits, without leading zero, whose decimal value is the count. |
| Users.StatusNamesDistinct | src/pages/Users.tsx:29 | Distinct statuses have distinct stored strings. |
| Users.RoleNamesDistinct | src/pages/Users.tsx:28 | Distinct roles have distinct stored strings. |
| Users.MatchesRole | src/pages/Users.tsx:120 | "all" lets every user through. A role's name lets through exactly the users of that role. Any other value lets no one through. |
| Users.MatchesStatus | src/pages/Users.tsx:121 | "all" lets every user through. A status's name lets through exactly the users with that status. Any other value lets no one through. |
| Users.MatchesSearch | src/pages/Users.tsx:118-119 | A user matches the search iff the lower-cased term occurs in the lower-cased name or in the lower-cased e-mail. An empty term matches everyone. |
| Users.Matches | src/pages/Users.tsx:117-124 | The `.filter` callback passes a user iff the search, role and status tests all pass. The initial query passes everyone. |
| Users.SearchFindsOwnNameAndEmail | src/pages/Users.tsx:118-119 | Searching for a user's full name or full e-mail finds that user. |
| Users.FilteredUsers | src/pages/Users.tsx:117-124 | The table rows are the users, in table order, that pass the search, role and status tests: both directions. An empty search keeps every role- and status-matching user. A role or status filter keeps only that role or status. The initial query shows all users. Each kept user keeps all its copies, so the rows are pinned even when records repeat. |
| Users.CountStatus | src/pages/Users.tsx:289 | A tally is at most the number of users. It is zero iff no user has that status. |
| Users.StatusCountsSum | src/pages/Users.tsx:276-317 | The "Actifs", "En attente" and "Suspendus" cards add up to the "Total" card. |
| Users.StatusLabel | src/pages/Users.tsx:83-94 | Known statuses get one of "Actif", "En attente", "Suspendu". An unknown status is shown as is. |
| Users.StatusLabelsDistinct | src/pages/Users.tsx:83-94 | Distinct statuses get distinct badges. |
| Users.StatusBadgesMatchFilterOptions | src/pages/Users.tsx:174-177 | Each status option of the select has the same text as that status's badge. |
| Users.RoleColor | src/pages/Users.tsx:96-107 | Admin, Dirigeant and Partenaire get a colour other than muted. Every other role is muted. |
| Users.RoleColorsOfRoles | src/pages/Users.tsx:96-107 | Admin is "text-destructive", Dirigeant "text-primary", Partenaire "text-warning" (three distinct colours), and "Utilisateur" is "text-muted-foreground". |
| Users.StatusAction | src/pages/Users.tsx:248-258 | The action is "Suspendre" iff the user is active, and "Activer" otherwise. |
| Exceptions.MatchesSeverity | src/pages/Exceptions.tsx:118 | "all" lets every exception through. A severity's name lets through exactly the exceptions of that severity. Any other value lets none through. |
| Exceptions.MatchesStatus | src/pages/Exceptions.tsx:119 | "all" lets every exception through. A status's name lets through exactly the exceptions with that status. Any other value lets none through. |
| Exceptions.MatchesSearch | src/pages/Exceptions.tsx:116-117 | An exception matches the search iff the lower-cased term occurs in the lower-cased title or the lower-cased module. An empty term matches every exception. |
| Exceptions.Matches | src/pages/Exceptions.tsx:115-122 | The `.filter` callback passes an exception iff the search, severity and status tests all pass. The initial query passes everything. |
| Exceptions.FilteredExceptions | src/pages/Exceptions.tsx:115-122 | The table rows are the exceptions, in log order, that pass the search, severity and status tests: both directions. A severity or status filter keeps only that value. The initial query shows all exceptions. Each kept exception keeps all its copies. |
| Exceptions.CountStatus | src/pages/Exceptions.tsx:125 | A status count is at most the number of exceptions. It is zero iff no exception has that status. |
| Exceptions.CriticalCount | src/pages/Exceptions.tsx:124 | The critical count is positive iff some exception is critical. |
| Exceptions.StatusCountsSum | src/pages/Exceptions.tsx:344-371 | The "Ouvertes", "En cours" and "Résolues" cards add up to the number of exceptions. |
| Exceptions.AlertBanner | src/pages/Exceptions.tsx:147-163 | The banner is shown iff some exception is critical. Its text then carries the critical count. |
| Exceptions.BannerText | src/pages/Exceptions.tsx:154 | The banner text starts with "Attention: ", then the count in decimal, and ends with " une intervention immédiate". |
| Exceptions.Plural | src/pages/Exceptions.tsx:154 | The plural ending appears iff more than one exception is counted. |
| Exceptions.BannerSingular | src/pages/Exceptions.tsx:154 | With one critical exception, the banner reads "Attention: 1 exception critique nécessite une intervention immédiate", with no plural ending. |
| Exceptions.BannerPlural | src/pages/Exceptions.tsx:154 | With n > 1 critical exceptions, it reads "Attention: n exceptions critiques nécessitent une intervention immédiate", with n in decimal. |
| Exceptions.SeverityLabel | src/pages/Exceptions.tsx:87-100 | Known severities get a French label. An unknown severity is shown as is. |
| Exceptions.StatusLabel | src/pages/Exceptions.tsx:102-113 | Known statuses get a French label. An unknown status is shown as is. |
| Exceptions.BadgesDistinguishValues | src/pages/Exceptions.tsx:87-113 | Distinct severities get distinct badges, and so do distinct statuses. |
| Exceptions.BadgesMatchFilterOptions | src/pages/Exceptions.tsx:184-200 | Each option of the two selects has the same text as the matching badge. |
| RecentActivity.BadgeVariant | src/components/dashboard/RecentActivity.tsx:60-71 | An unknown type gets "outline". Each known type gets one of "default", "secondary" or "destructive". |
| RecentActivity.View | src/components/dashboard/RecentActivity.tsx:88-103 | An entry's row shows the action as badge text. Its variant is "default" for a success, "secondary" for a warning and "destructive" for an error. The avatar is the author's initials: the upper-cased first character of each non-empty word of the name, in order. |
| RecentActivity.BadgeVariantsOfTypes | src/components/dashboard/RecentActivity.tsx:60-71 | Success is "default", warning "secondary", error "destructive": three distinct variants, none of them "outline". |

## Left out

- Rendering is not modelled: the JSX, icons, `getNavClass`, the chevron rotation, and every CSS class except the role colours that `getRoleColor` returns (`Users.RoleColor`). Only the texts, the badge variants, the role colours and the decisions behind them are modelled.
- The menu badges' display guard `item.badge && …` is rendering and is not modelled. The badge counts are kept as data in `Menu`.
- Time stamps (`formatDistanceToNow`, `Date.now()`) are left out of the records: they depend on the clock.
- Text.ToLower, Text.ToUpper: map only ASCII letters. JavaScript maps every Unicode letter (é, É …), so search and initials on accented names may differ from the source.
- Text.Initials: `n[0]` takes one UTF-16 code unit. The model takes one Dafny character, so names with characters outside the Basic Multilingual Plane are not modelled.
- React state hooks, `useLocation` and `useSidebar` are not modelled as such. The current path and the collapsed flag are parameters. The `useState` pairs are the fields of `SidebarState`.
- An absent `children` array and an empty one are modelled alike, because every rule of the source treats them alike.
- Expansion is keyed by title or label, as in the source, so two items with the same title share their expansion. The model keeps that keying.
- The exception details dialog is not modelled: its "Détails" button only records, with `setSelectedException`, which exception the dialog displays, and its resolution buttons have no handler.
- No entry of the users' dropdown menu has a handler. Only the choice between the "Suspendre" and "Activer" labels is modelled (`Users.StatusAction`).
- The sample records of the two pages and of the activity card are data, not logic, and are not part of this model.
- SystemConfig, ActivityChart, Dashboard, AdminLayout and App routing are not part of this model.

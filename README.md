# python-odm: a verified model of the LDAP object-document mapper

`odm.py` maps Python objects to LDAP directory entries. A program declares,
for each Python type, an object definition: its object classes and its
attribute list, where each name may end in a marker (`?` optional single,
`*` optional multi, `+` required multi, nothing for required single).
The `LdapMapper` keeps a registry from type to definition. Its operations
work on the instances of those types:

- `new_object` gives an instance with default fields.
- `build`, `load`, `load_parent` and `search` turn entries into instances.
- `add` and `modify` turn instances into write requests.
- `rename`, `delete` and `passwd` cover the remaining writes.

When a schema is given, each attribute's syntax OID selects a converter
from `LdapSyntaxTypeMapper`. The converter translates between the wire
text and Python values. The schema facade also walks an object class's
superiors breadth-first to collect their `must` and `may` attributes.

This project models that core in Dafny and proves properties of the model.

- **Values and exceptions** (`values.dfy`). Python values are None, bool,
  int, string and list. The exceptions the mapper lets escape are values
  of `Error`. Operations return a `Result`, or an `Option<Error>` next to
  what they did, so every error path of the source is an explicit
  outcome.
- **Converters** (`syntax.dfy`, `numerals.dfy`, `text.dfy`,
  `stringorder.dfy`). The five registered converters and their OIDs are
  modelled, together with `int()`, `str()`, `find`, `split`, `lower` and
  `sort` on strings.
- **Schema** (`schema.dfy`). The schema is the pair of tables the schema
  library answers from. `get_object_class_attrs` is a `while` loop over a
  FIFO queue. It is proved equal to a level-by-level breadth-first order.
- **Definitions** (`objdef.dfy`). An object definition is a class whose
  `attrlist` its `schemarize` method rewrites.
- **The mapper** (`mapper.dfy`). The mapper and the mapped instances are
  classes. An instance's fields are a `map` that the mapper's methods
  update. `dn` is one of those fields.
- **Specification functions** (`conversion.dfy`, `building.dfy`,
  `writing.dfy`, `renaming.dfy`). Each mapper method is proved against one
  of these functions, and the properties are proved as lemmas about the
  functions.
- **The server**. Nothing is sent over the network. What the server
  answers is a parameter: the directory as a map from DN to entry, or the
  results of a search. What the source sends is the method's result: an
  add request, a modify request with its operation list, a rename call or
  a password call.

Behaviour of the code worth knowing, which the model keeps as written:

- **modify on an unchanged instance.** `modify` does not send only changed
  attributes. Every declared attribute whose field is not None and that is
  present in the entry gets a REPLACE. So an instance that was just built
  and never changed still yields one REPLACE per present attribute
  (`Writing.ModifyAfterBuild`, `Writing.ModifyUnchangedExample`).
- **objectclass comparison.** `modify` compares the instance's objectclass
  field with the definition's list after sorting both lists. That is a
  comparison of multisets, not of sets, so a duplicated class name counts
  as a change (`Writing.ObjectClassOps`).
- **Errors.** The errors are Python's own:
  - an unregistered type raises `KeyError` for the type;
  - a missing required attribute raises `KeyError` for the attribute;
  - a missing entry raises the server's NO_SUCH_OBJECT.
- **DNs.** A DN is split at its first comma, without regard to escaping.
  A DN without a comma gives `find() == -1`, so the superior is the whole
  DN and the RDN loses its last character (`Dn.SplitDnNoComma`).
- **Single-valued attributes.** An empty value list for a single-valued
  attribute raises `IndexError` in `build` (`Building.BuildEmptySingle`).
- **rename and the naming attribute.** `rename` keeps only the text
  between the first and the second `=` of the new RDN
  (`Renaming.RenameTruncatesValue`). It raises `AttributeError` when
  `delold` asks it to delete a field the instance does not have.

## Model

| member | source | states |
|---|---|---|
| Dn.SplitDnComma | odm.py:6-12 | for a DN with a comma, rdn + "," + superior is the DN, the rdn holds no comma, and parent_dn is the superior |
| Dn.SplitJoin | odm.py:6-9 | splitting a comma-free rdn joined to any superior gives back both parts |
| Dn.SplitDnNoComma | odm.py:8-9 | without a comma, find gives -1: the superior is the whole DN and the rdn is the DN without its last character |
| Text.Find | odm.py:8 | the index of the first occurrence of the character, and -1 exactly when it does not occur |
| Text.SplitOn | odm.py:312-313 | the pieces contain no separator and joined with the separator give back the input |
| Text.SplitFirst | odm.py:312-313 | a separator-free prefix followed by the separator splits off as the first piece |
| Text.SplitPair | odm.py:312-313 | k=v with neither side holding '=' splits into exactly [k, v] |
| Text.SplitOnCount | odm.py:312-315 | a split has a second piece exactly when the separator occurs |
| Text.ObjectClassNames | odm.py:261 | the objectclass test accepts objectClass, objectclass and OBJECTCLASS and rejects every name of another length |
| Text.ObjectClassAnyCase | odm.py:261 | the objectclass test accepts every name whose letters lower one by one to objectclass, that is objectClass in any letter case |
| Numerals.ParseFormat | odm.py:51-57 | int(str(n)) == n for every integer |
| Numerals.ParseIdempotent | odm.py:62-65 | str(int(s)) is a fixed point: converting it again gives it back |
| Numerals.DigitsValueOfFormat | odm.py:56 | the decimal digits str() writes for a natural number denote that number |
| Numerals.ParseDigits | odm.py:54 | int() reads a run of decimal digits as the number they denote |
| Numerals.ParseNegated | odm.py:54 | int() reads a minus sign followed by digits as the negated number |
| Values.PyStrRoundTrip | odm.py:46-56 | str() of a string is the string, and int() reads str() of an int back as that int |
| Values.Iterate | odm.py:283 | list(v) succeeds exactly on lists and strings, giving a list's own items and a string's one-character strings in order |
| StringOrder.Sort | odm.py:284-285 | sort gives a sorted permutation of the list |
| StringOrder.SortedUnique | odm.py:284-286 | two sorted permutations of the same multiset are equal |
| StringOrder.SortEqualIff | odm.py:282-286 | two lists compare equal after sorting exactly when they hold the same multiset |
| SyntaxTypes.TableOf | odm.py:81-84 | the table has an OID exactly when some converter has it, and stores under each OID a converter with that OID |
| SyntaxTypes.BuildTable | odm.py:81-84 | the loop of __init__ builds that table and registers every converter of the list |
| SyntaxTypes.GetMapper | odm.py:86-89 | a converter found for an OID is one whose OID it is |
| SyntaxTypes.OidsDistinct | odm.py:27-66 | the five registered OIDs are pairwise distinct |
| SyntaxTypes.GetMapperExact | odm.py:27-89 | a syntax finds a given converter exactly when it is that converter's OID |
| SyntaxTypes.TimeSyntaxesUnmapped | odm.py:68-79 | Generalized Time, UTC Time and a missing syntax find no converter |
| SyntaxTypes.WireRoundTrip | odm.py:27-66 | canonical wire text decodes to a value of the converter's kind and encodes back to the same text |
| SyntaxTypes.ValueRoundTrip | odm.py:27-66 | a value of the converter's kind encodes and decodes back to itself |
| SyntaxTypes.BooleanLossy | odm.py:27-32 | Boolean decodes anything but TRUE to False and always encodes TRUE or FALSE |
| SyntaxTypes.NumericStringIdempotent | odm.py:59-65 | NumericString output is normalised: decoding or encoding it again changes nothing |
| SyntaxTypes.IntegerErrors | odm.py:51-65 | Integer and NumericString raise ValueError exactly on text int() rejects |
| LdapSchema.AttributeTypeMapper | odm.py:115-117 | a converter found for an attribute type is the one for that type's syntax |
| LdapSchema.AttributeTypeMapperExact | odm.py:111-117 | an attribute type finds a converter exactly when the schema gives it a syntax and that syntax is the converter's OID |
| LdapSchema.GetObjectClassAttrs | odm.py:119-133 | the FIFO loop returns the must and may lists of every class in breadth-first order from the class, or AttributeError when an unknown class is reached |
| LdapSchema.VisitIsLevelOrder | odm.py:120-132 | the order the queue pops names is the level-by-level breadth-first order |
| LdapSchema.LevelOrderStart | odm.py:120-132 | the walk visits the class first and then the walk of its superiors |
| LdapSchema.LevelOrderAppend | odm.py:128-132 | walking from two queues joined visits each class as often as the two walks together |
| LdapSchema.TwoSuperiors | odm.py:128-130 | a class with a tuple of two superiors is visited once, followed by both superior chains |
| LdapSchema.MustMember | odm.py:126-127 | a name is collected exactly when some visited class lists it |
| LdapSchema.TwoSuperiorsAttrs | odm.py:126-132 | a class with two superiors collects its own attributes and those of both chains, and no others |
| ObjectDefinitions.ParseMarkers | odm.py:158-167 | '?', '*' and '+' give optional single, optional multi and required multi, and no marker gives required single |
| ObjectDefinitions.ParseUnparse | odm.py:158-167 | the entry that declares a definition parses back to that definition |
| ObjectDefinitions.UnparseParse | odm.py:158-167 | every non-empty entry is the entry of what it parses to |
| ObjectDefinitions.ParseAttributes | odm.py:157-168 | the list parses entry by entry in order, and fails with IndexError exactly when an entry is empty |
| ObjectDefinitions.NewObjectDefinition | odm.py:146-168 | the constructor keeps the class list and parses the attribute list, or raises IndexError |
| ObjectDefinitions.SchemarizeAttribute | odm.py:141-143 | name, requiredness and cardinality are kept, the syntax is the schema's (none when the schema has none) and the converter the one for that syntax |
| ObjectDefinitions.SchemarizeIdempotent | odm.py:141-143 | schemarizing twice is schemarizing once |
| ObjectDefinitions.ObjectDefinition.Schemarize | odm.py:170-172 | every attribute definition is schemarized in place, and the list keeps its length |
| Conversion.ConvertFromWire | odm.py:207 | the list comprehension succeeds exactly when every value converts, and gives the values in order |
| Conversion.ConvertToWire | odm.py:213 | the list comprehension succeeds exactly when every value converts, and gives the texts in order |
| Conversion.MapLdapToPython | odm.py:203-207 | without a schema or a converter the values pass through, and otherwise each converts in order, failing exactly when one fails |
| Conversion.MapPythonToLdap | odm.py:209-213 | without a schema or a converter the value passes through, and otherwise its items convert in order, failing exactly when iteration or a conversion fails |
| Conversion.SingleSentAsOne | odm.py:264-265 | a single-valued field goes out as a list of exactly one value: itself without a conversion, else its wire text, failing exactly when the converter rejects it |
| Building.DefaultAttrs | odm.py:185-190 | new_object defines exactly the declared fields |
| Building.DefaultAttrsValues | odm.py:185-190 | each declared field of a new instance holds its default |
| Building.BuildEmptySingle | odm.py:246-248 | a single-valued attribute the entry holds with no values makes build raise IndexError once the earlier definitions have built |
| Building.Fill | odm.py:243-252 | the loop succeeds exactly when every attribute builds, and the fields are the starting ones plus the attributes stored |
| Building.FillValues | odm.py:243-252 | after the loop, each present attribute holds its built value and every other field is unchanged |
| Building.BuildFields | odm.py:238-252 | a built instance has the dn and the declared fields, present ones converted and absent ones at their defaults |
| Building.BuildMissingRequired | odm.py:243-251 | a missing required attribute makes build fail, with KeyError for that attribute once the earlier definitions have built |
| Building.BuildSucceeds | odm.py:243-252 | build succeeds when every required attribute is present and every present one converts |
| Building.BuildFailsAt | odm.py:243-251 | build raises exactly the error of the first definition that fails |
| Building.FillFailsEarly | odm.py:243-251 | the first failing attribute decides the loop's error |
| Building.FillKeys | odm.py:243-252 | the loop adds no field other than the declared ones |
| Writing.Sent | odm.py:259-263 | a definition is sent exactly when it is declared, is not named objectclass and its field is not None |
| Writing.SentIndices | odm.py:259-263 | the positions sent are increasing and each passes that filter |
| Writing.SentIndicesComplete | odm.py:259-263 | every position whose definition passes that filter is among the positions sent |
| Writing.SentInOrder | odm.py:259-263 | the sent definitions are the definitions at those positions, so each is sent once and in definition order |
| Writing.AddItems | odm.py:259-266 | the pairs are built for the sent attributes in order, failing exactly when one conversion fails |
| Writing.AddRequestFor | odm.py:254-267 | the request is the objectClass pair and then the attribute pairs, at the instance's dn, and a conversion error comes before a missing dn |
| Writing.AddSendsFields | odm.py:259-266 | after the object classes, one pair per sent definition in order, carrying map_python_to_ldap of the field (wrapped when single-valued), which is the wrapped field itself without a conversion |
| Writing.ObjectClassOps | odm.py:281-288 | no operation when the sorted lists are equal, otherwise one REPLACE with the definition's classes sorted, and TypeError when the field cannot be listed |
| Writing.AttributeOps | odm.py:279-297 | each attribute contributes at most one operation, on its own name |
| Writing.AttributeOpsCases | odm.py:289-297 | a set field gives REPLACE when the entry has the attribute and ADD when it does not, and a None field gives DELETE when it has it and nothing when it does not |
| Writing.ModifyOps | odm.py:276-297 | the list succeeds exactly when every attribute succeeds, and touches declared attributes only |
| Writing.ModifyOpsIncludes | odm.py:276-297 | the operations of each attribute appear in the list |
| Writing.StepKeepsMatches | odm.py:278-297 | the operations of a later definition do not disturb an earlier definition's attribute |
| Writing.ModifyReconciles | odm.py:274-299 | applying the operations to the fetched entry as section 4.6 of RFC 4511 says leaves every declared attribute present exactly when its field is not None and sends a value, with that value, and keeps every undeclared one |
| Writing.ApplyOpsUntouched | odm.py:299 | operations on other attributes leave an attribute unchanged |
| Writing.ModifyAfterBuild | odm.py:289-293 | modify on a freshly built instance still emits a REPLACE for every present attribute |
| Writing.ModifyUnchangedExample | odm.py:238-299 | loading cn and sn and modifying without a change emits two REPLACE operations |
| Writing.ModifyDeleteExample | odm.py:296-297 | a field set to None that the entry holds gives exactly one DELETE |
| Writing.ModifyEmptyListExample | odm.py:289-293 | a multi-valued field left at [] is sent as a REPLACE with no values, which removes the attribute from the entry |
| Renaming.RenameWithoutDn | odm.py:306 | rename on an instance without a dn raises AttributeError and sends nothing |
| Renaming.RenameCallSent | odm.py:306-308 | the call names the old dn, the new rdn and delold, passes no superior when the given one is the current one and otherwise passes the given one (None or "" included), and moves exactly when a different non-empty superior is given |
| Renaming.RenameDn | odm.py:309-316 | the new dn is the new rdn, a comma and the new superior, which is the old one when no move is given |
| Renaming.RenameErrors | odm.py:312-315 | rename raises AttributeError for a missing old field and IndexError for an rdn without '=' |
| Renaming.RenameFields | odm.py:312-316 | the new naming field is set, the old one is deleted when delold, and every other field is kept |
| Renaming.RenameTruncatesValue | odm.py:313-315 | only the text up to a second '=' is stored as the new naming value |
| Renaming.RenameMove | odm.py:305-316 | renaming k=old to k=new under a new superior sets the naming field and the dn and sends the new superior |
| LdapMapper.Mapper.constructor | odm.py:177-180 | a new mapper keeps its schema and has no registrations |
| LdapMapper.Mapper.Register | odm.py:193-197 | registration stores the definition for the type, schemarizing it when there is a schema |
| LdapMapper.Mapper.Unregister | odm.py:199-201 | unregistering removes the type, and raises KeyError when the type is not registered |
| LdapMapper.Mapper.NewObject | odm.py:183-191 | a fresh instance of the type whose fields are the defaults, or KeyError for an unregistered type |
| LdapMapper.Mapper.Build | odm.py:238-252 | a fresh instance whose fields are what the build specification gives, or exactly its error |
| LdapMapper.Mapper.FillFields | odm.py:243-251 | the loop stores into the instance what Fill gives, or returns its error |
| LdapMapper.Mapper.BuildStep | odm.py:245-251 | one attribute is looked up, converted and reduced to its first value as the build specification says |
| LdapMapper.Mapper.Search | odm.py:226-236 | no results give an empty list, and otherwise one fresh built instance per result in order, failing exactly when some result does not build |
| LdapMapper.Mapper.Load | odm.py:215-221 | the instance built from the entry at the DN, or NoSuchObject when there is none |
| LdapMapper.Mapper.LoadParent | odm.py:223-224 | the instance loaded from the parent of the instance's dn |
| LdapMapper.Mapper.Add | odm.py:254-267 | the add request for the instance, or KeyError for an unregistered type |
| LdapMapper.Mapper.CollectItems | odm.py:259-266 | the loop gives the pairs the add specification gives |
| LdapMapper.Mapper.CollectOps | odm.py:276-298 | the loop gives the operations the modify specification gives, or the first error |
| LdapMapper.Mapper.AttributeStep | odm.py:279-297 | one definition yields the operations the modify specification gives for it |
| LdapMapper.Mapper.Modify | odm.py:269-299 | the modify request for the instance's dn, raising AttributeError without a dn, NoSuchObject without an entry and KeyError without a registration |
| LdapMapper.Mapper.Delete | odm.py:301-303 | the delete request names the instance's dn, or raises AttributeError |
| LdapMapper.Mapper.Passwd | odm.py:318-319 | the password call names the instance's dn and both passwords |
| LdapMapper.Mapper.Rename | odm.py:305-316 | the call sent and the instance's new fields are what the rename specification gives |

## Left out

- Network and server I/O. `search_s`, `add_s`, `modify_s`, `rename_s`,
  `delete_s` and `passwd_s` are not modelled as calls. Reads are
  parameters (a directory map, or the ordered results of a search).
  Writes are returned as request values.
- Server-side failures are not modelled. These include a connection
  error, adding an entry that exists, a refused modify, and an access
  denial.
- The search base, scope and filter (`odm.py:226-233`) are left to the
  server. `Search` receives the results the server would give.
- `LdapSchema.from_server` (`odm.py:100-109`) reads the subschema over the
  network. It is not modelled. A schema is given as its two tables.
- The schema library's `get_inheritedattr` finds an attribute type's
  syntax. It looks the name up ignoring case, and then follows only the
  type's first superior when the type has no syntax of its own. The model
  takes the syntax table after that lookup, with exact keys, and does not
  model the lookup itself.
- ObjectDefinitions.SchemarizeAttribute: a name missing from the syntax
  table is modelled as a type without a syntax, so its values pass
  through unconverted. The library instead raises KeyError for an
  attribute type the schema does not know.
- LdapMapper.Mapper.Register: because of that, registering always
  succeeds here, whereas in the source, `schemarize` (`odm.py:142`) and
  so `register` (`odm.py:195`) raise KeyError for a declared attribute
  the schema does not know, and leave the definition partly schemarized
  and unregistered.
- The schema library's `get_obj` answers None for an unknown class. The
  model takes that, and the AttributeError the next line raises.
- UTF-8 decoding and encoding in the Unicode converter are not modelled,
  because strings are sequences of characters. Text is passed through, so
  a UnicodeDecodeError on bad bytes is not captured.
- repr() of a string ignores Python's choice of quote character and its
  escapes. This only matters to IA5String and Integer `str()` of a
  non-string value.
- `int()` accepts surrounding whitespace, one sign and decimal digits.
  Other forms that Python 2's `int()` treats differently are not modelled,
  such as a trailing `L` or whitespace after the sign.
- `AbstractMapper` and `DummyMapper` (`odm.py:18-25`) are never appended to
  the registry. `GentimeMapper` and `UTCTimeMapper` have no conversions.
  The time syntaxes appear only as OIDs without a converter.
- The `__new__` interception that `register` installs (`odm.py:196`) is
  modelled as `NewObject`. Python class machinery is not modelled, so
  constructor arguments and class attributes seen through `getattr` are
  not captured.
- A mapped type is identified by its name. The `KeyError` for an
  unregistered type carries that name, where Python's carries the class
  object.
- Instance fields other than the declared ones and `dn` are kept in the
  field map. add, modify and build never read them; rename tests, deletes
  and sets the naming field of the old and new rdn whether or not it is
  declared (`Renaming.RenameFields`). `getattr(obj, name, None)` reads an
  absent field as None.
- A cyclic `sup` chain makes `get_object_class_attrs` loop forever. The
  model requires an acyclic class hierarchy, stated as a ranking of the
  classes.
- Concurrency and the relative order of several clients' writes are not
  modelled.
- `schema-test.py` and the `trunk` scripts are not part of this model.
- LdapMapper.Mapper.Search: when a result does not build, the contract
  does not say which error is returned, except for the unregistered-type
  KeyError. The source raises the first failing result's error.
- Writing.AttributeOps: its own contract states only the bound and the
  name. The four cases are stated in `Writing.AttributeOpsCases`.
- Building.BuildFields: stated for definitions with distinct names none of
  which is `dn`. A definition that repeats a name, or declares `dn`, is
  built by `Building.Fill` as the source does, but only the Fill contract
  describes that case.
- Conversion.DnOf: a `dn` field that is not a string is modelled as a
  missing one, raising AttributeError. In the source, reading `obj.dn`
  succeeds for any value. rename and load_parent then fail on the string
  methods (AttributeError), while add, modify, delete and passwd hand the
  value to the LDAP library, whose checks are not modelled.
- LdapMapper.Mapper.Load: the instance is built with the DN asked for,
  where the source builds it with the DN the server returns (`res[0]`).
  The two agree because the directory is a map keyed by the DN asked for;
  a server returning a differently written DN is not modelled.
- Writing.ApplyOp: an ADD with no values, which a server refuses, is
  modelled as changing nothing.

/** User records: one last-writer-wins register per field, and aggregate timestamps over them. */
module UserRecord {
  import opened Common

  datatype Field =
    | Active | EncKey | SignKey
    | ChannelAdd | ChannelRead
    | UserAdd | UserRead | UserRemove | EncKeyUpdate | SignKeyUpdate | PermissionsUpdate

  /** The fields an aggregate timestamp covers. */
  datatype Group = AnyField | AnyPermission | ChannelPermissions | UserPermissions

  predicate Member(f: Field, g: Group) {
    match g
    case AnyField => true
    case AnyPermission => !f.Active? && !f.EncKey? && !f.SignKey?
    case ChannelPermissions => f.ChannelAdd? || f.ChannelRead?
    case UserPermissions => !f.Active? && !f.EncKey? && !f.SignKey? && !f.ChannelAdd? && !f.ChannelRead?
  }

  /** The fields in the order a new record gets them. */
  const ALL: seq<Field> :=
    [Active, EncKey, SignKey, ChannelAdd, ChannelRead, UserAdd, UserRead, UserRemove, EncKeyUpdate, SignKeyUpdate, PermissionsUpdate]

  lemma AllHasEveryField()
    ensures forall f: Field :: f in ALL
  {
    forall f: Field ensures f in ALL {
      match f
      case Active => assert ALL[0] == f;
      case EncKey => assert ALL[1] == f;
      case SignKey => assert ALL[2] == f;
      case ChannelAdd => assert ALL[3] == f;
      case ChannelRead => assert ALL[4] == f;
      case UserAdd => assert ALL[5] == f;
      case UserRead => assert ALL[6] == f;
      case UserRemove => assert ALL[7] == f;
      case EncKeyUpdate => assert ALL[8] == f;
      case SignKeyUpdate => assert ALL[9] == f;
      case PermissionsUpdate => assert ALL[10] == f;
    }
  }

  /** Flags for permissions, keys for the two key fields. */
  datatype Value = Flag(ok: bool) | Key(text: string)
  datatype Register = Register(value: Value, updatedAt: Time)
  type Registers = m: map<Field, Register> | forall f: Field :: f in m
    witness map f: Field :: Register(Flag(false), ZERO_TIME)
  type Values = m: map<Field, Value> | forall f: Field :: f in m
    witness map f: Field :: Flag(false)

  /** A request to change fields of the record `id`; fields may repeat. */
  datatype Change = Change(id: string, fields: seq<Field>, data: Values, timestamp: Time)

  datatype Aggregates = Aggregates(record: Time, permissions: Time, channel: Time, user: Time)
  datatype Record = Record(id: string, registers: Registers, updatedAt: Aggregates, createdAt: Time)

  // ---------------------------------------------------------------- specification

  function Zero(f: Field): Value {
    if f.EncKey? || f.SignKey? then Key("") else Flag(false)
  }

  function Blank(): Registers {
    map f: Field :: Register(Zero(f), ZERO_TIME)
  }

  /** All permissions granted, or none. */
  function AllFlags(ok: bool): Values {
    map f: Field :: if f.EncKey? || f.SignKey? then Key("") else Flag(ok)
  }

  /** A register keeps the newest write. */
  function Written(r: Register, value: Value, t: Time): Register {
    if t > r.updatedAt then Register(value, t) else r
  }

  function Merged(r: Register, c: Change, f: Field): Register {
    if f in c.fields then Written(r, c.data[f], c.timestamp) else r
  }

  /** Whether a change writes any field of a group. */
  predicate Touches(registers: Registers, c: Change, group: Group) {
    exists f :: f in c.fields && Member(f, group) && c.timestamp > registers[f].updatedAt
  }

  function Changed(r: Record, c: Change): (x: Record)
    ensures x.id == r.id && x.createdAt == r.createdAt
  {
    r.(registers := (map f: Field :: Merged(r.registers[f], c, f)),
       updatedAt := Aggregates(
         if Touches(r.registers, c, AnyField) then c.timestamp else r.updatedAt.record,
         if Touches(r.registers, c, AnyPermission) then c.timestamp else r.updatedAt.permissions,
         if Touches(r.registers, c, ChannelPermissions) then c.timestamp else r.updatedAt.channel,
         if Touches(r.registers, c, UserPermissions) then c.timestamp else r.updatedAt.user))
  }

  function Created(c: Change): (x: Record)
    ensures x.id == c.id && x.createdAt == c.timestamp
  {
    Record(c.id, map f: Field :: Written(Register(Zero(f), ZERO_TIME), c.data[f], c.timestamp),
           Aggregates(c.timestamp, c.timestamp, c.timestamp, c.timestamp), c.timestamp)
  }

  predicate Granted(r: Record, f: Field) {
    r.registers[f].value == Flag(true)
  }

  /** What the certifier of an update must be granted for one field. */
  predicate MayChange(r: Record, c: Change, f: Field) {
    match f
    case Active => Granted(r, UserRemove)
    case EncKey => Granted(r, EncKeyUpdate) || c.id == r.id
    case SignKey => Granted(r, SignKeyUpdate) || c.id == r.id
    case _ => Granted(r, PermissionsUpdate)
  }

  // ---------------------------------------------------------------- the record

  class User {
    var id: string
    var registers: Registers
    var updatedAt: Time
    var permissionsUpdatedAt: Time
    var channelUpdatedAt: Time
    var userUpdatedAt: Time
    var createdAt: Time

    function View(): Record
      reads this
    {
      Record(id, registers, Aggregates(updatedAt, permissionsUpdatedAt, channelUpdatedAt, userUpdatedAt), createdAt)
    }

    constructor ()
    {
      id := "";
      registers := Blank();
      updatedAt, permissionsUpdatedAt, channelUpdatedAt, userUpdatedAt, createdAt :=
        ZERO_TIME, ZERO_TIME, ZERO_TIME, ZERO_TIME, ZERO_TIME;
    }

    method UpdateRegister(f: Field, value: Value, t: Time) returns (changed: bool)
      modifies this`registers
      ensures registers == old(registers)[f := Written(old(registers)[f], value, t)]
      ensures registers == if changed then old(registers)[f := Register(value, t)] else old(registers)
      ensures changed == (t > old(registers)[f].updatedAt)
    {
      if t > registers[f].updatedAt {
        registers := registers[f := Register(value, t)];
        return true;
      }
      return false;
    }

    /** Fields one by one; a field named twice is written once. */
    method ApplyUpdateRequest(c: Change)
      modifies this
      ensures View() == Changed(old(View()), c)
      ensures id == old(id) && createdAt == old(createdAt)
      ensures forall f: Field :: registers[f] ==
                if f in c.fields && old(registers)[f].updatedAt < c.timestamp then Register(c.data[f], c.timestamp)
                else old(registers)[f]
      ensures updatedAt ==
                if exists f :: f in c.fields && old(registers)[f].updatedAt < c.timestamp then c.timestamp else old(updatedAt)
      ensures permissionsUpdatedAt ==
                if exists f :: f in c.fields && f != Active && f != EncKey && f != SignKey
                               && old(registers)[f].updatedAt < c.timestamp
                then c.timestamp else old(permissionsUpdatedAt)
      ensures channelUpdatedAt ==
                if exists f :: f in c.fields && (f == ChannelAdd || f == ChannelRead) && old(registers)[f].updatedAt < c.timestamp
                then c.timestamp else old(channelUpdatedAt)
      ensures userUpdatedAt ==
                if exists f :: f in c.fields && (f == UserAdd || f == UserRead || f == UserRemove
                                                 || f == EncKeyUpdate || f == SignKeyUpdate || f == PermissionsUpdate)
                               && old(registers)[f].updatedAt < c.timestamp
                then c.timestamp else old(userUpdatedAt)
    {
      hide Changed, Member, Covering;
      ghost var r := View();
      assert c.fields[..0] == [];
      NothingNamed(r, c);
      var i := 0;
      while i < |c.fields|
        invariant 0 <= i <= |c.fields|
        invariant View() == Changed(r, c.(fields := c.fields[..i]))
      {
        ghost var prefix := c.(fields := c.fields[..i]);
        FieldByField(r, prefix, c.fields[i]);
        assert c.fields[..i + 1] == prefix.fields + [c.fields[i]];
        ApplyField(c, c.fields[i]);
        i := i + 1;
      }
      assert c.fields[..i] == c.fields;
      ChangedExactly(r, c);
    }

    method ApplyField(c: Change, f: Field)
      modifies this
      ensures View() == OneMore(old(View()), c, f)
    {
      hide Member, Written;
      var changed := UpdateRegister(f, c.data[f], c.timestamp);
      if changed {
        MarkUpdated(f, c.timestamp);
      }
    }

    /** Sets the timestamps that cover a field. */
    method MarkUpdated(f: Field, t: Time)
      modifies this`updatedAt, this`permissionsUpdatedAt, this`channelUpdatedAt, this`userUpdatedAt
      ensures View() == old(View()).(updatedAt := Covering(old(View()).updatedAt, f, t))
      ensures updatedAt == t
      ensures permissionsUpdatedAt == if f == Active || f == EncKey || f == SignKey then old(permissionsUpdatedAt) else t
      ensures channelUpdatedAt == if f == ChannelAdd || f == ChannelRead then t else old(channelUpdatedAt)
      ensures userUpdatedAt ==
                if f == UserAdd || f == UserRead || f == UserRemove || f == EncKeyUpdate || f == SignKeyUpdate || f == PermissionsUpdate
                then t else old(userUpdatedAt)
    {
      updatedAt := t;
      match f {
        case Active | EncKey | SignKey =>
        case ChannelAdd | ChannelRead =>
          permissionsUpdatedAt := t;
          channelUpdatedAt := t;
        case _ =>
          permissionsUpdatedAt := t;
          userUpdatedAt := t;
      }
    }

    method Create(c: Change)
      requires registers == Blank()
      modifies this
      ensures View() == Created(c)
      ensures id == c.id && createdAt == c.timestamp
      ensures updatedAt == permissionsUpdatedAt == channelUpdatedAt == userUpdatedAt == c.timestamp
      ensures c.timestamp > ZERO_TIME ==> forall f: Field :: registers[f] == Register(c.data[f], c.timestamp)
      ensures c.timestamp <= ZERO_TIME ==>
                forall f: Field :: registers[f] == Register(if f == EncKey || f == SignKey then Key("") else Flag(false), ZERO_TIME)
    {
      id := c.id;
      AllHasEveryField();
      WriteAll(ALL, c);
      updatedAt, permissionsUpdatedAt, channelUpdatedAt, userUpdatedAt, createdAt :=
        c.timestamp, c.timestamp, c.timestamp, c.timestamp, c.timestamp;
    }

    /** Writes fields of a blank record one after the other. */
    method WriteAll(fields: seq<Field>, c: Change)
      requires registers == Blank() && forall f: Field :: f in fields
      modifies this`registers
      ensures registers == Created(c).registers
    {
      var i := 0;
      while i < |fields|
        invariant 0 <= i <= |fields|
        invariant forall f: Field ::
                    registers[f] == if f in fields[..i] then Written(Blank()[f], c.data[f], c.timestamp) else Blank()[f]
      {
        assert fields[..i + 1] == fields[..i] + [fields[i]];
        var _ := UpdateRegister(fields[i], c.data[fields[i]], c.timestamp);
        i := i + 1;
      }
      assert fields[..i] == fields;
    }

    /** Stops at the first field that is not allowed. */
    method IsAuthorizedToUpdate(c: Change) returns (result: bool)
      ensures result <==> forall f :: f in c.fields ==> MayChange(View(), c, f)
      ensures result <==>
                && (Active in c.fields ==> registers[UserRemove].value == Flag(true))
                && (EncKey in c.fields ==> registers[EncKeyUpdate].value == Flag(true) || c.id == id)
                && (SignKey in c.fields ==> registers[SignKeyUpdate].value == Flag(true) || c.id == id)
                && ((exists f :: f in c.fields && f != Active && f != EncKey && f != SignKey) ==>
                      registers[PermissionsUpdate].value == Flag(true))
    {
      result := true;
      var i := 0;
      while i < |c.fields|
        invariant 0 <= i <= |c.fields|
        invariant result <==> forall f :: f in c.fields[..i] ==> MayChange(View(), c, f)
      {
        if !result {
          return;
        }
        assert c.fields[..i + 1] == c.fields[..i] + [c.fields[i]];
        match c.fields[i] {
          case Active => result := registers[UserRemove].value == Flag(true);
          case EncKey => result := registers[EncKeyUpdate].value == Flag(true) || c.id == id;
          case SignKey => result := registers[SignKeyUpdate].value == Flag(true) || c.id == id;
          case _ => result := registers[PermissionsUpdate].value == Flag(true);
        }
        assert result <==> MayChange(View(), c, c.fields[i]);
        i := i + 1;
      }
      assert c.fields[..i] == c.fields;
    }
  }

  lemma NothingNamed(r: Record, c: Change)
    ensures Changed(r, c.(fields := [])) == r
  {
    assert Changed(r, c.(fields := [])).registers == r.registers;
  }

  /** Every named field that is older gets the new value, and each group timestamp the time of the change
      exactly if such a field belongs to the group. */
  lemma ChangedExactly(r: Record, c: Change)
    ensures forall f: Field :: Changed(r, c).registers[f] ==
              if f in c.fields && r.registers[f].updatedAt < c.timestamp then Register(c.data[f], c.timestamp) else r.registers[f]
    ensures Changed(r, c).updatedAt.record ==
              if exists f :: f in c.fields && r.registers[f].updatedAt < c.timestamp then c.timestamp else r.updatedAt.record
    ensures Changed(r, c).updatedAt.permissions ==
              if exists f :: f in c.fields && f != Active && f != EncKey && f != SignKey
                             && r.registers[f].updatedAt < c.timestamp
              then c.timestamp else r.updatedAt.permissions
    ensures Changed(r, c).updatedAt.channel ==
              if exists f :: f in c.fields && (f == ChannelAdd || f == ChannelRead) && r.registers[f].updatedAt < c.timestamp
              then c.timestamp else r.updatedAt.channel
    ensures Changed(r, c).updatedAt.user ==
              if exists f :: f in c.fields && (f == UserAdd || f == UserRead || f == UserRemove
                                               || f == EncKeyUpdate || f == SignKeyUpdate || f == PermissionsUpdate)
                             && r.registers[f].updatedAt < c.timestamp
              then c.timestamp else r.updatedAt.user
  {
    TouchesExactly(r.registers, c);
    hide Touches, Member;
  }

  lemma TouchesExactly(registers: Registers, c: Change)
    ensures Touches(registers, c, AnyField) <==> exists f :: f in c.fields && registers[f].updatedAt < c.timestamp
    ensures Touches(registers, c, AnyPermission)
            <==> exists f :: f in c.fields && f != Active && f != EncKey && f != SignKey && registers[f].updatedAt < c.timestamp
    ensures Touches(registers, c, ChannelPermissions)
            <==> exists f :: f in c.fields && (f == ChannelAdd || f == ChannelRead) && registers[f].updatedAt < c.timestamp
    ensures Touches(registers, c, UserPermissions)
            <==> exists f :: f in c.fields && (f == UserAdd || f == UserRead || f == UserRemove
                                               || f == EncKeyUpdate || f == SignKeyUpdate || f == PermissionsUpdate)
                             && registers[f].updatedAt < c.timestamp
  {
    forall f: Field
      ensures Member(f, UserPermissions) <==>
                || f == UserAdd || f == UserRead || f == UserRemove
                || f == EncKeyUpdate || f == SignKeyUpdate || f == PermissionsUpdate
    {
    }
  }

  /** One more field of a change: its register is written unless an earlier mention did. */
  function OneMore(r: Record, c: Change, f: Field): Record
  {
    var newer := c.timestamp > r.registers[f].updatedAt;
    r.(registers := r.registers[f := Written(r.registers[f], c.data[f], c.timestamp)],
       updatedAt := if newer then Covering(r.updatedAt, f, c.timestamp) else r.updatedAt)
  }

  /** The aggregate timestamps that cover a field, set to one time. */
  function Covering(u: Aggregates, f: Field, t: Time): Aggregates {
    Aggregates(
      t,
      if Member(f, AnyPermission) then t else u.permissions,
      if Member(f, ChannelPermissions) then t else u.channel,
      if Member(f, UserPermissions) then t else u.user)
  }

  lemma FieldByField(r: Record, c: Change, f: Field)
    ensures Changed(r, c.(fields := c.fields + [f])) == OneMore(Changed(r, c), c, f)
  {
    var b := c.(fields := c.fields + [f]);
    RegistersOneMore(r, c, f);
    TouchesOneMore(r.registers, c, b, f, AnyField);
    TouchesOneMore(r.registers, c, b, f, AnyPermission);
    TouchesOneMore(r.registers, c, b, f, ChannelPermissions);
    TouchesOneMore(r.registers, c, b, f, UserPermissions);
    AlreadyTouched(r, c, f, AnyField);
    AlreadyTouched(r, c, f, AnyPermission);
    AlreadyTouched(r, c, f, ChannelPermissions);
    AlreadyTouched(r, c, f, UserPermissions);
  }

  /** A register that is newer than a change no longer is once the change has named its field. */
  lemma AlreadyTouched(r: Record, c: Change, f: Field, group: Group)
    ensures c.timestamp > r.registers[f].updatedAt && !(c.timestamp > Changed(r, c).registers[f].updatedAt) && Member(f, group)
            ==> Touches(r.registers, c, group)
    ensures c.timestamp > Changed(r, c).registers[f].updatedAt ==> c.timestamp > r.registers[f].updatedAt
  {
  }

  lemma RegistersOneMore(r: Record, c: Change, f: Field)
    ensures
      var before := Changed(r, c).registers;
      Changed(r, c.(fields := c.fields + [f])).registers == before[f := Written(before[f], c.data[f], c.timestamp)]
  {
    var before, b := Changed(r, c).registers, c.(fields := c.fields + [f]);
    forall g: Field
      ensures Changed(r, b).registers[g] == before[f := Written(before[f], c.data[f], c.timestamp)][g]
    {
      assert g in b.fields <==> g in c.fields || g == f;
    }
  }

  lemma TouchesOneMore(registers: Registers, a: Change, b: Change, f: Field, group: Group)
    requires b == a.(fields := a.fields + [f])
    ensures Touches(registers, b, group)
            <==> Touches(registers, a, group) || (Member(f, group) && b.timestamp > registers[f].updatedAt)
  {
    if g :| g in a.fields && Member(g, group) && a.timestamp > registers[g].updatedAt {
      assert g in b.fields;
    }
    if Member(f, group) && b.timestamp > registers[f].updatedAt {
      assert f in b.fields;
    }
  }
}

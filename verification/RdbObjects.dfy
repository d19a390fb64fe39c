/** The parser, which moves a cursor, and the writer, which collects chunks. An exception is a false or a
    None result. */
module RdbObjects {
  import opened Text
  import opened Store
  import opened Rdb

  class RDBParser {
    const buffer: string
    const redisStore: RedisStore
    var cursor: nat

    constructor (buffer: string, redisStore: RedisStore)
      ensures this.buffer == buffer && this.redisStore == redisStore && cursor == 0
    {
      this.buffer, this.redisStore, cursor := buffer, redisStore, 0;
    }

    ghost predicate Moved<T>(r: Read<T>, result: Option<T>)
      reads this
    {
      match result
      case None => r == Failed
      case Some(value) => r == Got(value, cursor)
    }

    method ParseLengthEncoded() returns (length: Option<int>)
      modifies this`cursor
      ensures Moved(LengthAt(buffer, old(cursor)), length)
    {
      if cursor >= |buffer| { return None; }
      var firstByte := ByteAt(buffer, cursor);
      var encodingType := firstByte / 64;
      if encodingType == 0 {
        cursor := cursor + 1;
        return Some(firstByte % 64);
      }
      if encodingType == 1 {
        if cursor + 2 > |buffer| { return None; }
        var nextByte := ByteAt(buffer, cursor + 1);
        cursor := cursor + 2;
        return Some(firstByte % 64 * 256 + nextByte);
      }
      if encodingType == 2 {
        if cursor + 5 > |buffer| { return None; }
        cursor := cursor + 1;
        var value := BigEndian(buffer, cursor, 4);
        cursor := cursor + 4;
        return Some(value);
      }
      return Some(-1);
    }

    method ParseStringEncoded() returns (value: Option<string>)
      modifies this`cursor
      ensures Moved(StringAt(buffer, old(cursor)), value)
    {
      hide LengthAt, DecInt, Signed, LittleEndian;
      var length := ParseLengthEncoded();
      if length == None { return None; }
      if length.value == -1 {
        var specialFormat := ByteAt(buffer, cursor) % 64;
        cursor := cursor + 1;
        var width, half := 1, 0x80;
        match specialFormat {
          case 0 =>
          case 1 => width, half := 2, 0x8000;
          case 2 => width, half := 4, 0x8000_0000;
          case _ => return None;
        }
        if cursor + width > |buffer| { return None; }
        var n := Signed(LittleEndian(buffer, cursor, width), half);
        cursor := cursor + width;
        return Some(DecInt(n));
      }
      if cursor + length.value > |buffer| { return None; }
      var text := buffer[cursor..cursor + length.value];
      cursor := cursor + length.value;
      return Some(text);
    }

    method ParseKeyValuePair(now: int) returns (ok: bool)
      requires cursor < |buffer|
      modifies this`cursor, redisStore
      ensures match PairAt(buffer, old(cursor), old(redisStore.store), now)
              case Failed => !ok && redisStore.store == old(redisStore.store)
              case Got(s, next) => ok && redisStore.store == s && cursor == next
    {
      hide StringAt, LittleEndian, DateOf;
      var expiry := Never;
      var valueType := ByteAt(buffer, cursor);
      if valueType == 0xfd {
        cursor := cursor + 1;
        if cursor + 4 > |buffer| { return false; }
        expiry := DateOf(Some(LittleEndian(buffer, cursor, 4) * 1000));
        cursor := cursor + 4;
      } else if valueType == 0xfc {
        cursor := cursor + 1;
        if cursor + 8 > |buffer| { return false; }
        expiry := DateOf(Some(LittleEndian(buffer, cursor, 8)));
        cursor := cursor + 8;
      }
      if cursor >= |buffer| || ByteAt(buffer, cursor) != 0 { return false; }
      cursor := cursor + 1;
      var key := ParseStringEncoded();
      if key == None { return false; }
      var value := ParseStringEncoded();
      if value == None { return false; }
      if Alive(expiry, now) { redisStore.Set(key.value, Str(value.value), expiry); }
      ok := true;
    }

    /** An exception leaves the keys loaded so far in the store. */
    ghost predicate Came(p: Progress, ok: bool)
      reads this, redisStore
    {
      ok == p.ok && redisStore.store == p.store && (ok ==> cursor == p.cursor)
    }

    method ParseDatabaseSelector(now: int) returns (ok: bool)
      requires cursor < |buffer|
      modifies this`cursor, redisStore
      ensures Came(Database(buffer, old(cursor), old(redisStore.store), now), ok)
    {
      hide LengthAt, PairAt;
      cursor := cursor + 1;
      var dbNumber := ParseLengthEncoded();
      if dbNumber == None { return false; }
      if cursor < |buffer| && ByteAt(buffer, cursor) == 0xfb {
        cursor := cursor + 1;
        var hashTableSize := ParseLengthEncoded();
        if hashTableSize == None { return false; }
        var expiryHashTableSize := ParseLengthEncoded();
        if expiryHashTableSize == None { return false; }
      }
      ghost var p := Pairs(buffer, cursor, redisStore.store, now);
      while cursor < |buffer|
        invariant cursor <= |buffer|
        invariant Pairs(buffer, cursor, redisStore.store, now) == p
        decreases |buffer| - cursor
      {
        if EndsDatabase(ByteAt(buffer, cursor)) { break; }
        var loaded := ParseKeyValuePair(now);
        if !loaded { return false; }
      }
      ok := true;
    }

    method ParseAuxiliaryField() returns (ok: bool)
      requires cursor < |buffer|
      modifies this`cursor
      ensures match Auxiliary(buffer, old(cursor)) case Failed => !ok case Got(_, next) => ok && cursor == next
    {
      hide StringAt;
      cursor := cursor + 1;
      var key := ParseStringEncoded();
      if key == None { return false; }
      var value := ParseStringEncoded();
      ok := value.Some?;
    }

    method Parse(now: int) returns (ok: bool)
      requires cursor == 0
      modifies this`cursor, redisStore
      ensures Came(Rdb.Parse(buffer, old(redisStore.store), now), ok)
    {
      hide Database, Auxiliary;
      if !HasMagic(buffer) { return false; }
      cursor := cursor + 9;
      ghost var p := Sections(buffer, cursor, redisStore.store, now);
      while cursor < |buffer|
        invariant Sections(buffer, cursor, redisStore.store, now) == p
        decreases if cursor < |buffer| then |buffer| - cursor else 0
      {
        var opcode := ByteAt(buffer, cursor);
        if opcode == 0xfa {
          var skipped := ParseAuxiliaryField();
          if !skipped { return false; }
        } else if opcode == 0xfe {
          var loaded := ParseDatabaseSelector(now);
          if !loaded { return false; }
        } else {
          return opcode == 0xff;
        }
      }
      ok := true;
    }
  }

  class RDBWriter {
    const redisStore: RedisStore
    var bufferChunks: seq<string>

    constructor (redisStore: RedisStore)
      ensures this.redisStore == redisStore && bufferChunks == []
    {
      this.redisStore, bufferChunks := redisStore, [];
    }

    /** Buffer.concat. */
    ghost function Written(): string
      reads this
    {
      Joined(bufferChunks)
    }

    method Push(chunk: string)
      modifies this`bufferChunks
      ensures Written() == old(Written()) + chunk
    {
      bufferChunks := bufferChunks + [chunk];
      assert bufferChunks[..|bufferChunks| - 1] == old(bufferChunks);
    }

    method WriteString(text: string) returns (ok: bool)
      modifies this`bufferChunks
      ensures ok <==> EncodeString(text).Some?
      ensures ok ==> Written() == old(Written()) + EncodeString(text).value
    {
      hide Joined;
      var length := EncodeLength(|text|);
      if length == None { return false; }
      Push(length.value);
      Push(text);
      assert old(Written()) + length.value + text == old(Written()) + (length.value + text);
      ok := true;
    }

    method WritePair(key: string, v: StoreValue) returns (ok: bool)
      requires v.value.Str?
      modifies this`bufferChunks
      ensures ok <==> EncodePair(key, v).Some?
      ensures ok ==> Written() == old(Written()) + EncodePair(key, v).value
    {
      hide Joined, EncodeString, EncodeLE;
      ghost var start := Written();
      if v.expiration == InvalidDate { return false; }
      if v.expiration.Until? {
        if v.expiration.ms < 0 { return false; }
        Push([ByteChar(0xfc)]);
        Push(EncodeLE(v.expiration.ms, 8));
        assert Written() == start + EncodeExpiry(v.expiration).value by {
          assert start + [ByteChar(0xfc)] + EncodeLE(v.expiration.ms, 8)
              == start + ([ByteChar(0xfc)] + EncodeLE(v.expiration.ms, 8));
        }
      } else {
        assert start + "" == start;
      }
      Push([ByteChar(0)]);
      var named := WriteString(key);
      if !named { return false; }
      ok := WriteString(v.value.text);
      if ok {
        Regroup(start, EncodeExpiry(v.expiration).value, [ByteChar(0)], EncodeString(key).value, EncodeString(v.value.text).value);
      }
    }

    /** The loop over the keys; expired strings and other types are passed over. */
    method WritePairs(now: nat) returns (ok: bool)
      modifies this`bufferChunks
      ensures var pairs := EncodePairs(redisStore.store, redisStore.store.order, now);
              && (ok <==> pairs.Some?)
              && (ok ==> Written() == old(Written()) + pairs.value)
    {
      hide Joined, EncodePair;
      ghost var s := redisStore.store;
      var keys := redisStore.store.order;
      ghost var start := Written();
      ghost var done := "";
      assert start + "" == start && keys[0..] == keys;
      for i := 0 to |keys|
        invariant redisStore.store == s && Written() == start + done
        invariant var rest := EncodePairs(s, keys[i..], now);
                  && (rest.Some? <==> EncodePairs(s, keys, now).Some?)
                  && (rest.Some? ==> done + rest.value == EncodePairs(s, keys, now).value)
      {
        var key := keys[i];
        assert keys[i..][0] == key && keys[i..][1..] == keys[i + 1..];
        var storeValue := redisStore.Get(key);
        if storeValue.Some? && storeValue.value.value.Str? {
          var v := storeValue.value;
          if !(v.expiration.Until? && v.expiration.ms <= now) {
            var written := WritePair(key, v);
            if !written { return false; }
            ghost var pair, rest := EncodePair(key, v).value, EncodePairs(s, keys[i + 1..], now);
            assert (start + done) + pair == start + (done + pair);
            assert rest.Some? ==> (done + pair) + rest.value == done + (pair + rest.value);
            done := done + pair;
          }
        }
      }
      assert keys[|keys|..] == [] && done + "" == done;
      ok := true;
    }

    method BuildRDB(now: nat) returns (file: Option<string>)
      requires bufferChunks == []
      modifies this`bufferChunks
      ensures file == Build(redisStore.store, now)
    {
      hide EncodePairs, EncodeLE, Joined, Magic;
      assert Written() == "" by { JoinedNothing(); }
      ghost var pairs := EncodePairs(redisStore.store, redisStore.store.order, now);
      Push(Magic());
      Push([ByteChar(0xfe)]);
      Push([ByteChar(0)]);
      Push([ByteChar(0xfb)]);
      var size := EncodeLength(|redisStore.store.order|);
      if size == None { return None; }
      Push(size.value);
      Push([ByteChar(0)]);
      assert Written() == Magic() + Prologue(|redisStore.store.order|) by { assert "" + Magic() == Magic(); }
      var ok := WritePairs(now);
      if !ok { return None; }
      Push([ByteChar(0xff)]);
      Push(EncodeLE(0, 8));
      assert Written() == Build(redisStore.store, now).value by {
        Regroup(Magic(), Prologue(|redisStore.store.order|), pairs.value, [ByteChar(0xff)], EncodeLE(0, 8));
      }
      var result := JoinChunks(bufferChunks);
      file := Some(result);
    }
  }

  function Joined(chunks: seq<string>): string {
    if chunks == [] then "" else Joined(chunks[..|chunks| - 1]) + chunks[|chunks| - 1]
  }

  lemma JoinedNothing()
    ensures Joined([]) == ""
  {
  }

  method JoinChunks(chunks: seq<string>) returns (text: string)
    ensures text == Joined(chunks)
  {
    text := "";
    for i := 0 to |chunks|
      invariant text == Joined(chunks[..i])
    {
      assert chunks[..i + 1][..i] == chunks[..i];
      text := text + chunks[i];
    }
    assert chunks[..|chunks|] == chunks;
  }

  lemma Regroup(a: string, b: string, c: string, d: string, e: string)
    ensures a + b + c + d + e == a + (b + (c + (d + e)))
  {
  }
}

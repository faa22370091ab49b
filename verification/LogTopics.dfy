/** The five topics of the sample log, and why their formats can be read back. */
module LogTopics {
  import opened LogFormat
  import opened Wrappers

  const Rates := Topic("vehicle_angular_velocity",
                       [Field("uint64_t", "timestamp"), Field("float", "rollspeed"), Field("float", "pitchspeed"),
                        Field("float", "yawspeed")])
  const Accel := Topic("sensor_accel",
                       [Field("uint64_t", "timestamp"), Field("float", "x"), Field("float", "y"), Field("float", "z")])
  const Battery := Topic("battery_status",
                         [Field("uint64_t", "timestamp"), Field("float", "voltage_v"), Field("float", "current_a"),
                          Field("float", "remaining")])
  const Gps := Topic("vehicle_gps_position",
                     [Field("uint64_t", "timestamp"), Field("int32_t", "lat"), Field("int32_t", "lon"),
                      Field("int32_t", "alt"), Field("uint8_t", "fix_type"), Field("uint8_t", "satellites_used"),
                      Field("float", "hdop")])
  const Estimator := Topic("estimator_status",
                           [Field("uint64_t", "timestamp"), Field("uint16_t", "innovation_check_flags"),
                            Field("uint16_t", "solution_status_flags")])

  /** The topics, at the positions that are their message ids. */
  const Topics := [Rates, Accel, Battery, Gps, Estimator]

  lemma {:induction false} StampIsPlain()
    ensures PlainField(Field("uint64_t", "timestamp"))
  {
  }

  lemma {:induction false} SpeedsArePlain()
    ensures PlainField(Field("float", "rollspeed")) && PlainField(Field("float", "pitchspeed"))
    ensures PlainField(Field("float", "yawspeed"))
  {
  }

  lemma {:induction false} RatesFieldsArePlain()
    ensures PlainWord(Rates.name) && PlainFields(Rates.fields)
  {
    StampIsPlain();
    SpeedsArePlain();
  }

  lemma {:induction false} RatesIsSound()
    ensures Sound(Rates) && Size(Rates.fields) == Some(20)
  {
    RatesFieldsArePlain();
    var f := Rates.fields;
    AddField(f[..0], f[0], 0, 8);
    assert f[..0] + [f[0]] == f[..1];
    AddField(f[..1], f[1], 8, 4);
    assert f[..1] + [f[1]] == f[..2];
    AddField(f[..2], f[2], 12, 4);
    assert f[..2] + [f[2]] == f[..3];
    AddField(f[..3], f[3], 16, 4);
    assert f[..3] + [f[3]] == f[..4];
    assert f[..4] == f;
  }

  lemma {:induction false} AccelFieldsArePlain()
    ensures PlainWord(Accel.name) && PlainFields(Accel.fields)
  {
    StampIsPlain();
    assert PlainField(Field("float", "x"));
    assert PlainField(Field("float", "y"));
    assert PlainField(Field("float", "z"));
  }

  lemma {:induction false} AccelIsSound()
    ensures Sound(Accel) && Size(Accel.fields) == Some(20)
  {
    AccelFieldsArePlain();
    var f := Accel.fields;
    AddField(f[..0], f[0], 0, 8);
    assert f[..0] + [f[0]] == f[..1];
    AddField(f[..1], f[1], 8, 4);
    assert f[..1] + [f[1]] == f[..2];
    AddField(f[..2], f[2], 12, 4);
    assert f[..2] + [f[2]] == f[..3];
    AddField(f[..3], f[3], 16, 4);
    assert f[..3] + [f[3]] == f[..4];
    assert f[..4] == f;
  }

  lemma {:induction false} BatteryFieldsArePlain()
    ensures PlainWord(Battery.name) && PlainFields(Battery.fields)
  {
    StampIsPlain();
    assert PlainField(Field("float", "voltage_v"));
    assert PlainField(Field("float", "current_a"));
    assert PlainField(Field("float", "remaining"));
  }

  lemma {:induction false} BatteryIsSound()
    ensures Sound(Battery) && Size(Battery.fields) == Some(20)
  {
    BatteryFieldsArePlain();
    var f := Battery.fields;
    AddField(f[..0], f[0], 0, 8);
    assert f[..0] + [f[0]] == f[..1];
    AddField(f[..1], f[1], 8, 4);
    assert f[..1] + [f[1]] == f[..2];
    AddField(f[..2], f[2], 12, 4);
    assert f[..2] + [f[2]] == f[..3];
    AddField(f[..3], f[3], 16, 4);
    assert f[..3] + [f[3]] == f[..4];
    assert f[..4] == f;
  }

  lemma {:induction false} PlaceIsPlain()
    ensures PlainField(Field("int32_t", "lat")) && PlainField(Field("int32_t", "lon"))
    ensures PlainField(Field("int32_t", "alt"))
  {
  }

  lemma {:induction false} FixIsPlain()
    ensures PlainField(Field("uint8_t", "fix_type")) && PlainField(Field("float", "hdop"))
  {
  }

  lemma {:induction false} SatellitesArePlain()
    ensures PlainField(Field("uint8_t", "satellites_used"))
  {
  }

  lemma {:induction false} GpsFieldsArePlain()
    ensures PlainWord(Gps.name) && PlainFields(Gps.fields)
  {
    StampIsPlain();
    PlaceIsPlain();
    FixIsPlain();
    SatellitesArePlain();
  }

  lemma {:induction false} GpsIsSound()
    ensures Sound(Gps) && Size(Gps.fields) == Some(26)
  {
    GpsFieldsArePlain();
    var f := Gps.fields;
    AddField(f[..0], f[0], 0, 8);
    assert f[..0] + [f[0]] == f[..1];
    AddField(f[..1], f[1], 8, 4);
    assert f[..1] + [f[1]] == f[..2];
    AddField(f[..2], f[2], 12, 4);
    assert f[..2] + [f[2]] == f[..3];
    AddField(f[..3], f[3], 16, 4);
    assert f[..3] + [f[3]] == f[..4];
    AddField(f[..4], f[4], 20, 1);
    assert f[..4] + [f[4]] == f[..5];
    AddField(f[..5], f[5], 21, 1);
    assert f[..5] + [f[5]] == f[..6];
    AddField(f[..6], f[6], 22, 4);
    assert f[..6] + [f[6]] == f[..7];
    assert f[..7] == f;
  }

  lemma {:induction false} InnovationIsPlain()
    ensures PlainField(Field("uint16_t", "innovation_check_flags"))
  {
  }

  lemma {:induction false} SolutionIsPlain()
    ensures PlainField(Field("uint16_t", "solution_status_flags"))
  {
  }

  lemma {:induction false} EstimatorFieldsArePlain()
    ensures PlainWord(Estimator.name) && PlainFields(Estimator.fields)
  {
    StampIsPlain();
    InnovationIsPlain();
    SolutionIsPlain();
  }

  lemma {:induction false} EstimatorIsSound()
    ensures Sound(Estimator) && Size(Estimator.fields) == Some(12)
  {
    EstimatorFieldsArePlain();
    var f := Estimator.fields;
    AddField(f[..0], f[0], 0, 8);
    assert f[..0] + [f[0]] == f[..1];
    AddField(f[..1], f[1], 8, 2);
    assert f[..1] + [f[1]] == f[..2];
    AddField(f[..2], f[2], 10, 2);
    assert f[..2] + [f[2]] == f[..3];
    assert f[..3] == f;
  }
}

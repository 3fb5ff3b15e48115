/**
 * The table sizes of blt/lib/libblt/hash.c, and the certificate that each of them
 * is prime: a residue of full order, with its power worked out four binary
 * digits of the exponent at a time.
 */
module TableSizes {
  import opened Primality
  import opened Probing

  const TABLE_SIZE: seq<int> := [
    7, 19, 43, 103, 229, 463, 1021, 2083, 4219, 8539,
    17191, 34471, 69031, 138079, 276373, 552751, 1105549, 2211259,
    4422619, 8845453, 17691043, 35382091, 70764259, 141528559, 283057213, 566115259
  ]

  lemma PowZero(a: int, p: int)
    requires 1 < p
    ensures Pow(a, 0, p) == 1
  {
  }

  lemma Power1021At60()
    ensures Pow(10, 60, 1021) == 81
  {
    hide Pow;
    PowZero(10, 1021);
    Next4(10, 1021, 0, 1, 0, 1, 0, 1, 1, 10, 3, 1000);
    Next4(10, 1021, 3, 1000, 7, 326, 15, 920, 30, 1012, 60, 81);
  }

  lemma Power1021At204()
    ensures Pow(10, 204, 1021) == 802
  {
    hide Pow;
    PowZero(10, 1021);
    Next4(10, 1021, 0, 1, 1, 10, 3, 1000, 6, 441, 12, 491);
    Next4(10, 1021, 12, 491, 25, 229, 51, 637, 102, 432, 204, 802);
  }

  lemma Power1021At340()
    ensures Pow(10, 340, 1021) == 652
  {
    hide Pow;
    PowZero(10, 1021);
    Next4(10, 1021, 0, 1, 0, 1, 0, 1, 0, 1, 1, 10);
    Next4(10, 1021, 1, 10, 2, 100, 5, 963, 10, 301, 21, 383);
    Next4(10, 1021, 21, 383, 42, 686, 85, 171, 170, 653, 340, 652);
  }

  lemma Power1021At510()
    ensures Pow(10, 510, 1021) == 1020
  {
    hide Pow;
    PowZero(10, 1021);
    Next4(10, 1021, 0, 1, 0, 1, 0, 1, 0, 1, 1, 10);
    Next4(10, 1021, 1, 10, 3, 1000, 7, 326, 15, 920, 31, 931);
    Next4(10, 1021, 31, 931, 63, 341, 127, 912, 255, 374, 510, 1020);
  }

  lemma Prime1021()
    ensures Prime(1021)
  {
    hide Prime, Pow, Witness;
    TrialDivision(2);
    TrialDivision(3);
    TrialDivision(5);
    TrialDivision(17);
    Power1021At60();
    Power1021At204();
    Power1021At340();
    Power1021At510();
    Next(10, 1021, 510, 1020, 1020, 1);
    var qs := NoWitness(1021, 10);
    qs := AddWitness(1021, 10, 1, qs, 17, 60, 81, 17);
    qs := AddWitness(1021, 10, 17, qs, 5, 204, 802, 85);
    qs := AddWitness(1021, 10, 85, qs, 3, 340, 652, 255);
    qs := AddWitness(1021, 10, 255, qs, 2, 510, 1020, 510);
    qs := AddWitness(1021, 10, 510, qs, 2, 510, 1020, 1020);
    Lucas(1021, 10, qs);
  }

  lemma Power2083At6()
    ensures Pow(2, 6, 2083) == 64
  {
    hide Pow;
    PowZero(2, 2083);
    Next4(2, 2083, 0, 1, 0, 1, 1, 2, 3, 8, 6, 64);
  }

  lemma Power2083At694()
    ensures Pow(2, 694, 2083) == 449
  {
    hide Pow;
    PowZero(2, 2083);
    Next4(2, 2083, 0, 1, 0, 1, 0, 1, 1, 2, 2, 4);
    Next4(2, 2083, 2, 4, 5, 32, 10, 1024, 21, 1654, 43, 1474);
    Next4(2, 2083, 43, 1474, 86, 107, 173, 2068, 347, 450, 694, 449);
  }

  lemma Power2083At1041()
    ensures Pow(2, 1041, 2083) == 2082
  {
    hide Pow;
    PowZero(2, 2083);
    Next4(2, 2083, 0, 1, 0, 1, 1, 2, 2, 4, 4, 16);
    Next4(2, 2083, 4, 16, 8, 256, 16, 963, 32, 434, 65, 1772);
    Next4(2, 2083, 65, 1772, 130, 903, 260, 956, 520, 1582, 1041, 2082);
  }

  lemma Prime2083()
    ensures Prime(2083)
  {
    hide Prime, Pow, Witness;
    TrialDivision(2);
    TrialDivision(3);
    TrialDivision(347);
    Power2083At6();
    Power2083At694();
    Power2083At1041();
    Next(2, 2083, 1041, 2082, 2082, 1);
    var qs := NoWitness(2083, 2);
    qs := AddWitness(2083, 2, 1, qs, 347, 6, 64, 347);
    qs := AddWitness(2083, 2, 347, qs, 3, 694, 449, 1041);
    qs := AddWitness(2083, 2, 1041, qs, 2, 1041, 2082, 2082);
    Lucas(2083, 2, qs);
  }

  lemma Power4219At114()
    ensures Pow(2, 114, 4219) == 2565
  {
    hide Pow;
    PowZero(2, 4219);
    Next4(2, 4219, 0, 1, 0, 1, 1, 2, 3, 8, 7, 128);
    Next4(2, 4219, 7, 128, 14, 3727, 28, 1581, 57, 3826, 114, 2565);
  }

  lemma Power4219At222()
    ensures Pow(2, 222, 4219) == 1874
  {
    hide Pow;
    PowZero(2, 4219);
    Next4(2, 4219, 0, 1, 1, 2, 3, 8, 6, 64, 13, 3973);
    Next4(2, 4219, 13, 3973, 27, 2900, 55, 3066, 111, 848, 222, 1874);
  }

  lemma Power4219At1406()
    ensures Pow(2, 1406, 4219) == 112
  {
    hide Pow;
    PowZero(2, 4219);
    Next4(2, 4219, 0, 1, 0, 1, 1, 2, 2, 4, 5, 32);
    Next4(2, 4219, 5, 32, 10, 1024, 21, 309, 43, 1107, 87, 3878);
    Next4(2, 4219, 87, 3878, 175, 517, 351, 2984, 703, 113, 1406, 112);
  }

  lemma Power4219At2109()
    ensures Pow(2, 2109, 4219) == 4218
  {
    hide Pow;
    PowZero(2, 4219);
    Next4(2, 4219, 0, 1, 1, 2, 2, 4, 4, 16, 8, 256);
    Next4(2, 4219, 8, 256, 16, 2251, 32, 4201, 65, 648, 131, 227);
    Next4(2, 4219, 131, 227, 263, 1802, 527, 1367, 1054, 3891, 2109, 4218);
  }

  lemma Prime4219()
    ensures Prime(4219)
  {
    hide Prime, Pow, Witness;
    TrialDivision(2);
    TrialDivision(3);
    TrialDivision(19);
    TrialDivision(37);
    Power4219At114();
    Power4219At222();
    Power4219At1406();
    Power4219At2109();
    Next(2, 4219, 2109, 4218, 4218, 1);
    var qs := NoWitness(4219, 2);
    qs := AddWitness(4219, 2, 1, qs, 37, 114, 2565, 37);
    qs := AddWitness(4219, 2, 37, qs, 19, 222, 1874, 703);
    qs := AddWitness(4219, 2, 703, qs, 3, 1406, 112, 2109);
    qs := AddWitness(4219, 2, 2109, qs, 2, 2109, 4218, 4218);
    Lucas(4219, 2, qs);
  }

  lemma Power1423At18()
    ensures Pow(3, 18, 1423) == 201
  {
    hide Pow;
    PowZero(3, 1423);
    Next4(3, 1423, 0, 1, 0, 1, 0, 1, 0, 1, 1, 3);
    Next4(3, 1423, 1, 3, 2, 9, 4, 81, 9, 1184, 18, 201);
  }

  lemma Power1423At474()
    ensures Pow(3, 474, 1423) == 779
  {
    hide Pow;
    PowZero(3, 1423);
    Next4(3, 1423, 0, 1, 0, 1, 0, 1, 0, 1, 1, 3);
    Next4(3, 1423, 1, 3, 3, 27, 7, 764, 14, 266, 29, 241);
    Next4(3, 1423, 29, 241, 59, 637, 118, 214, 237, 780, 474, 779);
  }

  lemma Power1423At711()
    ensures Pow(3, 711, 1423) == 1422
  {
    hide Pow;
    PowZero(3, 1423);
    Next4(3, 1423, 0, 1, 0, 1, 0, 1, 1, 3, 2, 9);
    Next4(3, 1423, 2, 9, 5, 243, 11, 695, 22, 628, 44, 213);
    Next4(3, 1423, 44, 213, 88, 1256, 177, 1133, 355, 429, 711, 1422);
  }

  lemma Prime1423()
    ensures Prime(1423)
  {
    hide Prime, Pow, Witness;
    TrialDivision(2);
    TrialDivision(3);
    TrialDivision(79);
    Power1423At18();
    Power1423At474();
    Power1423At711();
    Next(3, 1423, 711, 1422, 1422, 1);
    var qs := NoWitness(1423, 3);
    qs := AddWitness(1423, 3, 1, qs, 79, 18, 201, 79);
    qs := AddWitness(1423, 3, 79, qs, 3, 474, 779, 237);
    qs := AddWitness(1423, 3, 237, qs, 3, 474, 779, 711);
    qs := AddWitness(1423, 3, 711, qs, 2, 711, 1422, 1422);
    Lucas(1423, 3, qs);
  }

  lemma Power8539At6()
    ensures Pow(2, 6, 8539) == 64
  {
    hide Pow;
    PowZero(2, 8539);
    Next4(2, 8539, 0, 1, 0, 1, 1, 2, 3, 8, 6, 64);
  }

  lemma Power8539At2846()
    ensures Pow(2, 2846, 8539) == 2552
  {
    hide Pow;
    PowZero(2, 8539);
    Next4(2, 8539, 0, 1, 1, 2, 2, 4, 5, 32, 11, 2048);
    Next4(2, 8539, 11, 2048, 22, 1655, 44, 6545, 88, 5401, 177, 3154);
    Next4(2, 8539, 177, 3154, 355, 8101, 711, 7972, 1423, 2553, 2846, 2552);
  }

  lemma Power8539At4269()
    ensures Pow(2, 4269, 8539) == 8538
  {
    hide Pow;
    PowZero(2, 8539);
    Next4(2, 8539, 0, 1, 0, 1, 0, 1, 0, 1, 1, 2);
    Next4(2, 8539, 1, 2, 2, 4, 4, 16, 8, 256, 16, 5763);
    Next4(2, 8539, 16, 5763, 33, 7996, 66, 4523, 133, 4709, 266, 7437);
    Next4(2, 8539, 266, 7437, 533, 3732, 1067, 1430, 2134, 4079, 4269, 8538);
  }

  lemma Prime8539()
    ensures Prime(8539)
  {
    hide Prime, Pow, Witness;
    TrialDivision(2);
    TrialDivision(3);
    Prime1423();
    Power8539At6();
    Power8539At2846();
    Power8539At4269();
    Next(2, 8539, 4269, 8538, 8538, 1);
    var qs := NoWitness(8539, 2);
    qs := AddWitness(8539, 2, 1, qs, 1423, 6, 64, 1423);
    qs := AddWitness(8539, 2, 1423, qs, 3, 2846, 2552, 4269);
    qs := AddWitness(8539, 2, 4269, qs, 2, 4269, 8538, 8538);
    Lucas(8539, 2, qs);
  }

  lemma Power17191At90()
    ensures Pow(3, 90, 17191) == 10994
  {
    hide Pow;
    PowZero(3, 17191);
    Next4(3, 17191, 0, 1, 0, 1, 1, 3, 2, 9, 5, 243);
    Next4(3, 17191, 5, 243, 11, 5237, 22, 6524, 45, 10171, 90, 10994);
  }

  lemma Power17191At3438()
    ensures Pow(3, 3438, 17191) == 2643
  {
    hide Pow;
    PowZero(3, 17191);
    Next4(3, 17191, 0, 1, 1, 3, 3, 27, 6, 729, 13, 12751);
    Next4(3, 17191, 13, 12751, 26, 12714, 53, 13660, 107, 13458, 214, 10579);
    Next4(3, 17191, 214, 10579, 429, 5493, 859, 8532, 1719, 7799, 3438, 2643);
  }

  lemma Power17191At5730()
    ensures Pow(3, 5730, 17191) == 1821
  {
    hide Pow;
    PowZero(3, 17191);
    Next4(3, 17191, 0, 1, 0, 1, 0, 1, 0, 1, 1, 3);
    Next4(3, 17191, 1, 3, 2, 9, 5, 243, 11, 5237, 22, 6524);
    Next4(3, 17191, 22, 6524, 44, 14851, 89, 9395, 179, 5102, 358, 3230);
    Next4(3, 17191, 358, 3230, 716, 15154, 1432, 6338, 2865, 1822, 5730, 1821);
  }

  lemma Power17191At8595()
    ensures Pow(3, 8595, 17191) == 17190
  {
    hide Pow;
    PowZero(3, 17191);
    Next4(3, 17191, 0, 1, 0, 1, 0, 1, 1, 3, 2, 9);
    Next4(3, 17191, 2, 9, 4, 81, 8, 6561, 16, 457, 33, 7671);
    Next4(3, 17191, 33, 7671, 67, 15535, 134, 8967, 268, 4782, 537, 10482);
    Next4(3, 17191, 537, 10482, 1074, 4643, 2148, 17126, 4297, 12675, 8595, 17190);
  }

  lemma Prime17191()
    ensures Prime(17191)
  {
    hide Prime, Pow, Witness;
    TrialDivision(2);
    TrialDivision(3);
    TrialDivision(5);
    TrialDivision(191);
    Power17191At90();
    Power17191At3438();
    Power17191At5730();
    Power17191At8595();
    Next(3, 17191, 8595, 17190, 17190, 1);
    var qs := NoWitness(17191, 3);
    qs := AddWitness(17191, 3, 1, qs, 191, 90, 10994, 191);
    qs := AddWitness(17191, 3, 191, qs, 5, 3438, 2643, 955);
    qs := AddWitness(17191, 3, 955, qs, 3, 5730, 1821, 2865);
    qs := AddWitness(17191, 3, 2865, qs, 3, 5730, 1821, 8595);
    qs := AddWitness(17191, 3, 8595, qs, 2, 8595, 17190, 17190);
    Lucas(17191, 3, qs);
  }

  lemma Power34471At90()
    ensures Pow(6, 90, 34471) == 7882
  {
    hide Pow;
    PowZero(6, 34471);
    Next4(6, 34471, 0, 1, 0, 1, 1, 6, 2, 36, 5, 7776);
    Next4(6, 34471, 5, 7776, 11, 24252, 22, 15302, 45, 7148, 90, 7882);
  }

  lemma Power34471At6894()
    ensures Pow(6, 6894, 34471) == 12530
  {
    hide Pow;
    PowZero(6, 34471);
    Next4(6, 34471, 0, 1, 0, 1, 0, 1, 0, 1, 1, 6);
    Next4(6, 34471, 1, 6, 3, 216, 6, 12185, 13, 11297, 26, 10567);
    Next4(6, 34471, 26, 10567, 53, 25049, 107, 33083, 215, 11479, 430, 19279);
    Next4(6, 34471, 430, 19279, 861, 12172, 1723, 7356, 3447, 16538, 6894, 12530);
  }

  lemma Power34471At11490()
    ensures Pow(6, 11490, 34471) == 3809
  {
    hide Pow;
    PowZero(6, 34471);
    Next4(6, 34471, 0, 1, 0, 1, 0, 1, 1, 6, 2, 36);
    Next4(6, 34471, 2, 36, 5, 7776, 11, 24252, 22, 15302, 44, 24172);
    Next4(6, 34471, 44, 24172, 89, 12804, 179, 24511, 359, 33314, 718, 28751);
    Next4(6, 34471, 718, 28751, 1436, 5421, 2872, 17949, 5745, 3810, 11490, 3809);
  }

  lemma Power34471At17235()
    ensures Pow(6, 17235, 34471) == 34470
  {
    hide Pow;
    PowZero(6, 34471);
    Next4(6, 34471, 0, 1, 0, 1, 1, 6, 2, 36, 4, 1296);
    Next4(6, 34471, 4, 1296, 8, 25008, 16, 27182, 33, 23789, 67, 2213);
    Next4(6, 34471, 67, 2213, 134, 2487, 269, 20218, 538, 10406, 1077, 34079);
    Next4(6, 34471, 1077, 34079, 2154, 15780, 4308, 24367, 8617, 29697, 17235, 34470);
  }

  lemma Prime34471()
    ensures Prime(34471)
  {
    hide Prime, Pow, Witness;
    TrialDivision(2);
    TrialDivision(3);
    TrialDivision(5);
    TrialDivision(383);
    Power34471At90();
    Power34471At6894();
    Power34471At11490();
    Power34471At17235();
    Next(6, 34471, 17235, 34470, 34470, 1);
    var qs := NoWitness(34471, 6);
    qs := AddWitness(34471, 6, 1, qs, 383, 90, 7882, 383);
    qs := AddWitness(34471, 6, 383, qs, 5, 6894, 12530, 1915);
    qs := AddWitness(34471, 6, 1915, qs, 3, 11490, 3809, 5745);
    qs := AddWitness(34471, 6, 5745, qs, 3, 11490, 3809, 17235);
    qs := AddWitness(34471, 6, 17235, qs, 2, 17235, 34470, 34470);
    Lucas(34471, 6, qs);
  }

  lemma Power69031At1170()
    ensures Pow(3, 1170, 69031) == 9672
  {
    hide Pow;
    PowZero(3, 69031);
    Next4(3, 69031, 0, 1, 0, 1, 1, 3, 2, 9, 4, 81);
    Next4(3, 69031, 4, 81, 9, 19683, 18, 18517, 36, 2312, 73, 20840);
    Next4(3, 69031, 73, 20840, 146, 31579, 292, 11415, 585, 53153, 1170, 9672);
  }

  lemma Power69031At5310()
    ensures Pow(3, 5310, 69031) == 58464
  {
    hide Pow;
    PowZero(3, 69031);
    Next4(3, 69031, 0, 1, 0, 1, 0, 1, 0, 1, 1, 3);
    Next4(3, 69031, 1, 3, 2, 9, 5, 243, 10, 59049, 20, 28591);
    Next4(3, 69031, 20, 28591, 41, 9568, 82, 11518, 165, 29257, 331, 31978);
    Next4(3, 69031, 331, 31978, 663, 39812, 1327, 61721, 2655, 18318, 5310, 58464);
  }

  lemma Power69031At13806()
    ensures Pow(3, 13806, 69031) == 20331
  {
    hide Pow;
    PowZero(3, 69031);
    Next4(3, 69031, 0, 1, 0, 1, 0, 1, 1, 3, 3, 27);
    Next4(3, 69031, 3, 27, 6, 729, 13, 6610, 26, 64508, 53, 4028);
    Next4(3, 69031, 53, 4028, 107, 7497, 215, 41325, 431, 62179, 862, 8824);
    Next4(3, 69031, 862, 8824, 1725, 57055, 3451, 3505, 6903, 61552, 13806, 20331);
  }

  lemma Power69031At23010()
    ensures Pow(3, 23010, 69031) == 38786
  {
    hide Pow;
    PowZero(3, 69031);
    Next4(3, 69031, 0, 1, 0, 1, 1, 3, 2, 9, 5, 243);
    Next4(3, 69031, 5, 243, 11, 39085, 22, 50226, 44, 51243, 89, 62582);
    Next4(3, 69031, 89, 62582, 179, 29786, 359, 58152, 719, 31490, 1438, 58816);
    Next4(3, 69031, 1438, 58816, 2876, 40384, 5752, 10081, 11505, 38787, 23010, 38786);
  }

  lemma Power69031At34515()
    ensures Pow(3, 34515, 69031) == 69030
  {
    hide Pow;
    PowZero(3, 69031);
    Next4(3, 69031, 0, 1, 1, 3, 2, 9, 4, 81, 8, 6561);
    Next4(3, 69031, 8, 6561, 16, 40408, 33, 48663, 67, 6373, 134, 24901);
    Next4(3, 69031, 134, 24901, 269, 1046, 539, 37891, 1078, 21143, 2157, 14110);
    Next4(3, 69031, 2157, 14110, 4314, 6696, 8628, 35297, 17257, 20163, 34515, 69030);
  }

  lemma Prime69031()
    ensures Prime(69031)
  {
    hide Prime, Pow, Witness;
    TrialDivision(2);
    TrialDivision(3);
    TrialDivision(5);
    TrialDivision(13);
    TrialDivision(59);
    Power69031At1170();
    Power69031At5310();
    Power69031At13806();
    Power69031At23010();
    Power69031At34515();
    Next(3, 69031, 34515, 69030, 69030, 1);
    var qs := NoWitness(69031, 3);
    qs := AddWitness(69031, 3, 1, qs, 59, 1170, 9672, 59);
    qs := AddWitness(69031, 3, 59, qs, 13, 5310, 58464, 767);
    qs := AddWitness(69031, 3, 767, qs, 5, 13806, 20331, 3835);
    qs := AddWitness(69031, 3, 3835, qs, 3, 23010, 38786, 11505);
    qs := AddWitness(69031, 3, 11505, qs, 3, 23010, 38786, 34515);
    qs := AddWitness(69031, 3, 34515, qs, 2, 34515, 69030, 69030);
    Lucas(69031, 3, qs);
  }

  lemma Power2557At36()
    ensures Pow(2, 36, 2557) == 2013
  {
    hide Pow;
    PowZero(2, 2557);
    Next4(2, 2557, 0, 1, 0, 1, 0, 1, 1, 2, 2, 4);
    Next4(2, 2557, 2, 4, 4, 16, 9, 512, 18, 1330, 36, 2013);
  }

  lemma Power2557At852()
    ensures Pow(2, 852, 2557) == 835
  {
    hide Pow;
    PowZero(2, 2557);
    Next4(2, 2557, 0, 1, 0, 1, 0, 1, 1, 2, 3, 8);
    Next4(2, 2557, 3, 8, 6, 64, 13, 521, 26, 399, 53, 1334);
    Next4(2, 2557, 53, 1334, 106, 2441, 213, 1342, 426, 836, 852, 835);
  }

  lemma Power2557At1278()
    ensures Pow(2, 1278, 2557) == 2556
  {
    hide Pow;
    PowZero(2, 2557);
    Next4(2, 2557, 0, 1, 0, 1, 1, 2, 2, 4, 4, 16);
    Next4(2, 2557, 4, 16, 9, 512, 19, 103, 39, 762, 79, 410);
    Next4(2, 2557, 79, 410, 159, 1233, 319, 305, 639, 1946, 1278, 2556);
  }

  lemma Prime2557()
    ensures Prime(2557)
  {
    hide Prime, Pow, Witness;
    TrialDivision(2);
    TrialDivision(3);
    TrialDivision(71);
    Power2557At36();
    Power2557At852();
    Power2557At1278();
    Next(2, 2557, 1278, 2556, 2556, 1);
    var qs := NoWitness(2557, 2);
    qs := AddWitness(2557, 2, 1, qs, 71, 36, 2013, 71);
    qs := AddWitness(2557, 2, 71, qs, 3, 852, 835, 213);
    qs := AddWitness(2557, 2, 213, qs, 3, 852, 835, 639);
    qs := AddWitness(2557, 2, 639, qs, 2, 1278, 2556, 1278);
    qs := AddWitness(2557, 2, 1278, qs, 2, 1278, 2556, 2556);
    Lucas(2557, 2, qs);
  }

  lemma Power138079At54()
    ensures Pow(3, 54, 138079) == 4808
  {
    hide Pow;
    PowZero(3, 138079);
    Next4(3, 138079, 0, 1, 0, 1, 0, 1, 1, 3, 3, 27);
    Next4(3, 138079, 3, 27, 6, 729, 13, 75454, 27, 98364, 54, 4808);
  }

  lemma Power138079At46026()
    ensures Pow(3, 46026, 138079) == 62410
  {
    hide Pow;
    PowZero(3, 138079);
    Next4(3, 138079, 0, 1, 1, 3, 2, 9, 5, 243, 11, 39068);
    Next4(3, 138079, 11, 39068, 22, 121437, 44, 107769, 89, 31460, 179, 82063);
    Next4(3, 138079, 179, 82063, 359, 117101, 719, 56133, 1438, 88988, 2876, 33494);
    Next4(3, 138079, 2876, 33494, 5753, 6562, 11506, 117275, 23013, 62411, 46026, 62410);
  }

  lemma Power138079At69039()
    ensures Pow(3, 69039, 138079) == 138078
  {
    hide Pow;
    PowZero(3, 138079);
    Next4(3, 138079, 0, 1, 0, 1, 0, 1, 0, 1, 1, 3);
    Next4(3, 138079, 1, 3, 2, 9, 4, 81, 8, 6561, 16, 104152);
    Next4(3, 138079, 16, 104152, 33, 44355, 67, 49299, 134, 62922, 269, 116751);
    Next4(3, 138079, 269, 116751, 539, 15995, 1078, 117717, 2157, 17500, 4314, 128857);
    Next4(3, 138079, 4314, 128857, 8629, 103939, 17259, 44283, 34519, 96472, 69039, 138078);
  }

  lemma Prime138079()
    ensures Prime(138079)
  {
    hide Prime, Pow, Witness;
    TrialDivision(2);
    TrialDivision(3);
    Prime2557();
    Power138079At54();
    Power138079At46026();
    Power138079At69039();
    Next(3, 138079, 69039, 138078, 138078, 1);
    var qs := NoWitness(138079, 3);
    qs := AddWitness(138079, 3, 1, qs, 2557, 54, 4808, 2557);
    qs := AddWitness(138079, 3, 2557, qs, 3, 46026, 62410, 7671);
    qs := AddWitness(138079, 3, 7671, qs, 3, 46026, 62410, 23013);
    qs := AddWitness(138079, 3, 23013, qs, 3, 46026, 62410, 69039);
    qs := AddWitness(138079, 3, 69039, qs, 2, 69039, 138078, 138078);
    Lucas(138079, 3, qs);
  }

  lemma Power853At12()
    ensures Pow(2, 12, 853) == 684
  {
    hide Pow;
    PowZero(2, 853);
    Next4(2, 853, 0, 1, 1, 2, 3, 8, 6, 64, 12, 684);
  }

  lemma Power853At284()
    ensures Pow(2, 284, 853) == 632
  {
    hide Pow;
    PowZero(2, 853);
    Next4(2, 853, 0, 1, 0, 1, 0, 1, 0, 1, 1, 2);
    Next4(2, 853, 1, 2, 2, 4, 4, 16, 8, 256, 17, 563);
    Next4(2, 853, 17, 563, 35, 159, 71, 235, 142, 633, 284, 632);
  }

  lemma Power853At426()
    ensures Pow(2, 426, 853) == 852
  {
    hide Pow;
    PowZero(2, 853);
    Next4(2, 853, 0, 1, 0, 1, 0, 1, 0, 1, 1, 2);
    Next4(2, 853, 1, 2, 3, 8, 6, 64, 13, 515, 26, 795);
    Next4(2, 853, 26, 795, 53, 757, 106, 686, 213, 333, 426, 852);
  }

  lemma Prime853()
    ensures Prime(853)
  {
    hide Prime, Pow, Witness;
    TrialDivision(2);
    TrialDivision(3);
    TrialDivision(71);
    Power853At12();
    Power853At284();
    Power853At426();
    Next(2, 853, 426, 852, 852, 1);
    var qs := NoWitness(853, 2);
    qs := AddWitness(853, 2, 1, qs, 71, 12, 684, 71);
    qs := AddWitness(853, 2, 71, qs, 3, 284, 632, 213);
    qs := AddWitness(853, 2, 213, qs, 2, 426, 852, 426);
    qs := AddWitness(853, 2, 426, qs, 2, 426, 852, 852);
    Lucas(853, 2, qs);
  }

  lemma Power276373At324()
    ensures Pow(2, 324, 276373) == 165339
  {
    hide Pow;
    PowZero(2, 276373);
    Next4(2, 276373, 0, 1, 0, 1, 0, 1, 0, 1, 1, 2);
    Next4(2, 276373, 1, 2, 2, 4, 5, 32, 10, 1024, 20, 219457);
    Next4(2, 276373, 20, 219457, 40, 63123, 81, 87176, 162, 226595, 324, 165339);
  }

  lemma Power276373At92124()
    ensures Pow(2, 92124, 276373) == 41257
  {
    hide Pow;
    PowZero(2, 276373);
    Next4(2, 276373, 0, 1, 0, 1, 0, 1, 0, 1, 1, 2);
    Next4(2, 276373, 1, 2, 2, 4, 5, 32, 11, 2048, 22, 48709);
    Next4(2, 276373, 22, 48709, 44, 180849, 89, 207216, 179, 111768, 359, 52448);
    Next4(2, 276373, 359, 52448, 719, 104470, 1439, 22260, 2878, 247184, 5757, 155897);
    Next4(2, 276373, 5757, 155897, 11515, 95097, 23031, 200579, 46062, 41258, 92124, 41257);
  }

  lemma Power276373At138186()
    ensures Pow(2, 138186, 276373) == 276372
  {
    hide Pow;
    PowZero(2, 276373);
    Next4(2, 276373, 0, 1, 0, 1, 0, 1, 1, 2, 2, 4);
    Next4(2, 276373, 2, 4, 4, 16, 8, 256, 16, 65536, 33, 261752);
    Next4(2, 276373, 33, 261752, 67, 274624, 134, 18898, 269, 120976, 539, 273468);
    Next4(2, 276373, 539, 273468, 1079, 19297, 2159, 199556, 4318, 11566, 8636, 7824);
    Next4(2, 276373, 8636, 7824, 17273, 273086, 34546, 25822, 69093, 51643, 138186, 276372);
  }

  lemma Prime276373()
    ensures Prime(276373)
  {
    hide Prime, Pow, Witness;
    TrialDivision(2);
    TrialDivision(3);
    Prime853();
    Power276373At324();
    Power276373At92124();
    Power276373At138186();
    Next(2, 276373, 138186, 276372, 276372, 1);
    var qs := NoWitness(276373, 2);
    qs := AddWitness(276373, 2, 1, qs, 853, 324, 165339, 853);
    qs := AddWitness(276373, 2, 853, qs, 3, 92124, 41257, 2559);
    qs := AddWitness(276373, 2, 2559, qs, 3, 92124, 41257, 7677);
    qs := AddWitness(276373, 2, 7677, qs, 3, 92124, 41257, 23031);
    qs := AddWitness(276373, 2, 23031, qs, 3, 92124, 41257, 69093);
    qs := AddWitness(276373, 2, 69093, qs, 2, 138186, 276372, 138186);
    qs := AddWitness(276373, 2, 138186, qs, 2, 138186, 276372, 276372);
    Lucas(276373, 2, qs);
  }

  lemma Power552751At8250()
    ensures Pow(15, 8250, 552751) == 35903
  {
    hide Pow;
    PowZero(15, 552751);
    Next4(15, 552751, 0, 1, 0, 1, 0, 1, 1, 15, 2, 225);
    Next4(15, 552751, 2, 225, 4, 50625, 8, 336989, 16, 551424, 32, 102676);
    Next4(15, 552751, 32, 102676, 64, 293904, 128, 56944, 257, 515546, 515, 194562);
    Next4(15, 552751, 515, 194562, 1031, 454657, 2062, 143428, 4125, 69259, 8250, 35903);
  }

  lemma Power552751At50250()
    ensures Pow(15, 50250, 552751) == 213238
  {
    hide Pow;
    PowZero(15, 552751);
    Next4(15, 552751, 0, 1, 1, 15, 3, 3375, 6, 335605, 12, 514012);
    Next4(15, 552751, 12, 514012, 24, 543907, 49, 307418, 98, 330001, 196, 421736);
    Next4(15, 552751, 196, 421736, 392, 353422, 785, 203407, 1570, 442548, 3140, 208988);
    Next4(15, 552751, 3140, 208988, 6281, 483426, 12562, 338431, 25125, 105765, 50250, 213238);
  }

  lemma Power552751At110550()
    ensures Pow(15, 110550, 552751) == 447731
  {
    hide Pow;
    PowZero(15, 552751);
    Next4(15, 552751, 0, 1, 0, 1, 0, 1, 0, 1, 1, 15);
    Next4(15, 552751, 1, 15, 3, 3375, 6, 335605, 13, 524417, 26, 221104);
    Next4(15, 552751, 26, 221104, 53, 331845, 107, 345770, 215, 310586, 431, 417457);
    Next4(15, 552751, 431, 417457, 863, 97812, 1727, 384536, 3454, 409784, 6909, 154667);
    Next4(15, 552751, 6909, 154667, 13818, 475862, 27637, 379134, 55275, 360849, 110550, 447731);
  }

  lemma Power552751At184250()
    ensures Pow(15, 184250, 552751) == 255889
  {
    hide Pow;
    PowZero(15, 552751);
    Next4(15, 552751, 0, 1, 0, 1, 0, 1, 1, 15, 2, 225);
    Next4(15, 552751, 2, 225, 5, 206624, 11, 329068, 22, 169471, 44, 30632);
    Next4(15, 552751, 44, 30632, 89, 92647, 179, 261456, 359, 117976, 719, 443189);
    Next4(15, 552751, 719, 443189, 1439, 497663, 2878, 84754, 5757, 302559, 11515, 117292);
    Next4(15, 552751, 11515, 117292, 23031, 457126, 46062, 533583, 92125, 255890, 184250, 255889);
  }

  lemma Power552751At276375()
    ensures Pow(15, 276375, 552751) == 552750
  {
    hide Pow;
    PowZero(15, 552751);
    Next4(15, 552751, 0, 1, 0, 1, 1, 15, 2, 225, 4, 50625);
    Next4(15, 552751, 4, 50625, 8, 336989, 16, 551424, 33, 434638, 67, 290706);
    Next4(15, 552751, 67, 290706, 134, 430797, 269, 262638, 539, 7535, 1079, 406835);
    Next4(15, 552751, 1079, 406835, 2159, 396554, 4318, 179171, 8636, 127414, 17273, 457890);
    Next4(15, 552751, 17273, 457890, 34546, 375792, 69093, 17684, 138187, 212854, 276375, 552750);
  }

  lemma Prime552751()
    ensures Prime(552751)
  {
    hide Prime, Pow, Witness;
    TrialDivision(2);
    TrialDivision(3);
    TrialDivision(5);
    TrialDivision(11);
    TrialDivision(67);
    Power552751At8250();
    Power552751At50250();
    Power552751At110550();
    Power552751At184250();
    Power552751At276375();
    Next(15, 552751, 276375, 552750, 552750, 1);
    var qs := NoWitness(552751, 15);
    qs := AddWitness(552751, 15, 1, qs, 67, 8250, 35903, 67);
    qs := AddWitness(552751, 15, 67, qs, 11, 50250, 213238, 737);
    qs := AddWitness(552751, 15, 737, qs, 5, 110550, 447731, 3685);
    qs := AddWitness(552751, 15, 3685, qs, 5, 110550, 447731, 18425);
    qs := AddWitness(552751, 15, 18425, qs, 5, 110550, 447731, 92125);
    qs := AddWitness(552751, 15, 92125, qs, 3, 184250, 255889, 276375);
    qs := AddWitness(552751, 15, 276375, qs, 2, 276375, 552750, 552750);
    Lucas(552751, 15, qs);
  }

  lemma Power1105549At2172()
    ensures Pow(10, 2172, 1105549) == 695886
  {
    hide Pow;
    PowZero(10, 1105549);
    Next4(10, 1105549, 0, 1, 1, 10, 2, 100, 4, 10000, 8, 500590);
    Next4(10, 1105549, 8, 500590, 16, 1084015, 33, 459054, 67, 5927, 135, 834257);
    Next4(10, 1105549, 135, 834257, 271, 779066, 543, 846736, 1086, 60608, 2172, 695886);
  }

  lemma Power1105549At6108()
    ensures Pow(10, 6108, 1105549) == 736842
  {
    hide Pow;
    PowZero(10, 1105549);
    Next4(10, 1105549, 0, 1, 0, 1, 0, 1, 0, 1, 1, 10);
    Next4(10, 1105549, 1, 10, 2, 100, 5, 100000, 11, 881852, 23, 1045318);
    Next4(10, 1105549, 23, 1045318, 47, 248724, 95, 911183, 190, 427077, 381, 738051);
    Next4(10, 1105549, 381, 738051, 763, 297248, 1527, 129848, 3054, 880854, 6108, 736842);
  }

  lemma Power1105549At368516()
    ensures Pow(10, 368516, 1105549) == 9345
  {
    hide Pow;
    PowZero(10, 1105549);
    Next4(10, 1105549, 0, 1, 0, 1, 1, 10, 2, 100, 5, 100000);
    Next4(10, 1105549, 5, 100000, 11, 881852, 22, 988971, 44, 1021776, 89, 10319);
    Next4(10, 1105549, 89, 10319, 179, 173923, 359, 626302, 719, 1033688, 1439, 944969);
    Next4(10, 1105549, 1439, 944969, 2879, 9691, 5758, 1049365, 11516, 299461, 23032, 283386);
    Next4(10, 1105549, 23032, 283386, 46064, 545636, 92129, 476508, 184258, 9346, 368516, 9345);
  }

  lemma Power1105549At552774()
    ensures Pow(10, 552774, 1105549) == 1105548
  {
    hide Pow;
    PowZero(10, 1105549);
    Next4(10, 1105549, 0, 1, 1, 10, 2, 100, 4, 10000, 8, 500590);
    Next4(10, 1105549, 8, 500590, 16, 1084015, 33, 459054, 67, 5927, 134, 857310);
    Next4(10, 1105549, 134, 857310, 269, 737453, 539, 169897, 1079, 1012131, 2159, 505827);
    Next4(10, 1105549, 2159, 505827, 4318, 432212, 8637, 556513, 17274, 433407, 34548, 8157);
    Next4(10, 1105549, 34548, 8157, 69096, 203709, 138193, 221915, 276387, 292396, 552774, 1105548);
  }

  lemma Prime1105549()
    ensures Prime(1105549)
  {
    hide Prime, Pow, Witness;
    TrialDivision(2);
    TrialDivision(3);
    TrialDivision(181);
    TrialDivision(509);
    Power1105549At2172();
    Power1105549At6108();
    Power1105549At368516();
    Power1105549At552774();
    Next(10, 1105549, 552774, 1105548, 1105548, 1);
    var qs := NoWitness(1105549, 10);
    qs := AddWitness(1105549, 10, 1, qs, 509, 2172, 695886, 509);
    qs := AddWitness(1105549, 10, 509, qs, 181, 6108, 736842, 92129);
    qs := AddWitness(1105549, 10, 92129, qs, 3, 368516, 9345, 276387);
    qs := AddWitness(1105549, 10, 276387, qs, 2, 552774, 1105548, 552774);
    qs := AddWitness(1105549, 10, 552774, qs, 2, 552774, 1105548, 1105548);
    Lucas(1105549, 10, qs);
  }

  lemma Power2211259At13566()
    ensures Pow(12, 13566, 2211259) == 2166862
  {
    hide Pow;
    PowZero(12, 2211259);
    Next4(12, 2211259, 0, 1, 0, 1, 0, 1, 1, 12, 3, 1728);
    Next4(12, 2211259, 3, 1728, 6, 774725, 13, 1345722, 26, 1861759, 52, 302840);
    Next4(12, 2211259, 52, 302840, 105, 1182900, 211, 1759184, 423, 747039, 847, 483716);
    Next4(12, 2211259, 847, 483716, 1695, 1373514, 3391, 1404159, 6783, 524496, 13566, 2166862);
  }

  lemma Power2211259At116382()
    ensures Pow(12, 116382, 2211259) == 827498
  {
    hide Pow;
    PowZero(12, 2211259);
    Next4(12, 2211259, 0, 1, 0, 1, 0, 1, 0, 1, 1, 12);
    Next4(12, 2211259, 1, 12, 3, 1728, 7, 451664, 14, 669851, 28, 530957);
    Next4(12, 2211259, 28, 530957, 56, 1925939, 113, 27780, 227, 2199367, 454, 2110347);
    Next4(12, 2211259, 454, 2110347, 909, 186070, 1818, 362737, 3636, 1586892, 7273, 732149);
    Next4(12, 2211259, 7273, 732149, 14547, 2115110, 29095, 1120900, 58191, 1015408, 116382, 827498);
  }

  lemma Power2211259At130074()
    ensures Pow(12, 130074, 2211259) == 2066347
  {
    hide Pow;
    PowZero(12, 2211259);
    Next4(12, 2211259, 0, 1, 0, 1, 0, 1, 0, 1, 1, 12);
    Next4(12, 2211259, 1, 12, 3, 1728, 7, 451664, 15, 1404435, 31, 2032470);
    Next4(12, 2211259, 31, 2032470, 63, 1190781, 127, 716295, 254, 101255, 508, 1178301);
    Next4(12, 2211259, 508, 1178301, 1016, 1213235, 2032, 1344321, 4064, 1096852, 8129, 227813);
    Next4(12, 2211259, 8129, 227813, 16259, 1748350, 32518, 477627, 65037, 816584, 130074, 2066347);
  }

  lemma Power2211259At315894()
    ensures Pow(12, 315894, 2211259) == 1734266
  {
    hide Pow;
    PowZero(12, 2211259);
    Next4(12, 2211259, 0, 1, 0, 1, 1, 12, 2, 144, 4, 20736);
    Next4(12, 2211259, 4, 20736, 9, 913105, 19, 83130, 38, 412525, 77, 497151);
    Next4(12, 2211259, 77, 497151, 154, 64594, 308, 1950362, 616, 270071, 1233, 1814371);
    Next4(12, 2211259, 1233, 1814371, 2467, 1539853, 4935, 563965, 9871, 995520, 19743, 1649237);
    Next4(12, 2211259, 19743, 1649237, 39486, 1436629, 78973, 1876963, 157947, 1231734, 315894, 1734266);
  }

  lemma Power2211259At737086()
    ensures Pow(12, 737086, 2211259) == 440394
  {
    hide Pow;
    PowZero(12, 2211259);
    Next4(12, 2211259, 0, 1, 1, 12, 2, 144, 5, 248832, 11, 1022839);
    Next4(12, 2211259, 11, 1022839, 22, 2128064, 44, 167355, 89, 885631, 179, 481159);
    Next4(12, 2211259, 179, 481159, 359, 1695765, 719, 812230, 1439, 712317, 2879, 220188);
    Next4(12, 2211259, 2879, 220188, 5758, 901769, 11516, 1254629, 23033, 2150201, 46067, 971539);
    Next4(12, 2211259, 46067, 971539, 92135, 1760617, 184271, 663687, 368543, 440395, 737086, 440394);
  }

  lemma Power2211259At1105629()
    ensures Pow(12, 1105629, 2211259) == 2211258
  {
    hide Pow;
    PowZero(12, 2211259);
    Next4(12, 2211259, 0, 1, 0, 1, 0, 1, 0, 1, 1, 12);
    Next4(12, 2211259, 1, 12, 2, 144, 4, 20736, 8, 997450, 16, 1374407);
    Next4(12, 2211259, 16, 1374407, 33, 789492, 67, 1116822, 134, 1994367, 269, 2210894);
    Next4(12, 2211259, 269, 2210894, 539, 1598700, 1079, 2076511, 2159, 87742, 4318, 1265985);
    Next4(12, 2211259, 4318, 1265985, 8637, 921926, 17275, 371464, 34550, 730437, 69101, 1335618);
    Next4(12, 2211259, 69101, 1335618, 138203, 1259414, 276407, 877964, 552814, 221745, 1105629, 2211258);
  }

  lemma Prime2211259()
    ensures Prime(2211259)
  {
    hide Prime, Pow, Witness;
    TrialDivision(2);
    TrialDivision(3);
    TrialDivision(7);
    TrialDivision(17);
    TrialDivision(19);
    TrialDivision(163);
    Power2211259At13566();
    Power2211259At116382();
    Power2211259At130074();
    Power2211259At315894();
    Power2211259At737086();
    Power2211259At1105629();
    Next(12, 2211259, 1105629, 2211258, 2211258, 1);
    var qs := NoWitness(2211259, 12);
    qs := AddWitness(2211259, 12, 1, qs, 163, 13566, 2166862, 163);
    qs := AddWitness(2211259, 12, 163, qs, 19, 116382, 827498, 3097);
    qs := AddWitness(2211259, 12, 3097, qs, 17, 130074, 2066347, 52649);
    qs := AddWitness(2211259, 12, 52649, qs, 7, 315894, 1734266, 368543);
    qs := AddWitness(2211259, 12, 368543, qs, 3, 737086, 440394, 1105629);
    qs := AddWitness(2211259, 12, 1105629, qs, 2, 1105629, 2211258, 2211258);
    Lucas(2211259, 12, qs);
  }

  lemma Power4422619At29682()
    ensures Pow(13, 29682, 4422619) == 1281540
  {
    hide Pow;
    PowZero(13, 4422619);
    Next4(13, 4422619, 0, 1, 0, 1, 1, 13, 3, 2197, 7, 831851);
    Next4(13, 4422619, 7, 831851, 14, 4272223, 28, 1683250, 57, 1459090, 115, 3951390);
    Next4(13, 4422619, 115, 3951390, 231, 1719434, 463, 2326309, 927, 4142271, 1855, 3882496);
    Next4(13, 4422619, 1855, 3882496, 3710, 3638032, 7420, 1267197, 14841, 3333046, 29682, 1281540);
  }

  lemma Power4422619At45594()
    ensures Pow(13, 45594, 4422619) == 1939130
  {
    hide Pow;
    PowZero(13, 4422619);
    Next4(13, 4422619, 0, 1, 1, 13, 2, 169, 5, 371293, 11, 187143);
    Next4(13, 4422619, 11, 187143, 22, 4205207, 44, 3448491, 89, 817816, 178, 3606343);
    Next4(13, 4422619, 178, 3606343, 356, 3574874, 712, 420144, 1424, 988589, 2849, 3194246);
    Next4(13, 4422619, 2849, 3194246, 5699, 3407930, 11398, 3640902, 22797, 468311, 45594, 1939130);
  }

  lemma Power4422619At260154()
    ensures Pow(13, 260154, 4422619) == 3911461
  {
    hide Pow;
    PowZero(13, 4422619);
    Next4(13, 4422619, 0, 1, 0, 1, 0, 1, 1, 13, 3, 2197);
    Next4(13, 4422619, 3, 2197, 7, 831851, 15, 2467471, 31, 790766, 63, 2188688);
    Next4(13, 4422619, 63, 2188688, 127, 2006088, 254, 368980, 508, 337104, 1016, 4334230);
    Next4(13, 4422619, 1016, 4334230, 2032, 2270167, 4064, 2400284, 8129, 2068059, 16259, 2324947);
    Next4(13, 4422619, 16259, 2324947, 32519, 2591934, 65038, 4385072, 130077, 4193200, 260154, 3911461);
  }

  lemma Power4422619At1474206()
    ensures Pow(13, 1474206, 4422619) == 3640853
  {
    hide Pow;
    PowZero(13, 4422619);
    Next4(13, 4422619, 0, 1, 0, 1, 0, 1, 0, 1, 1, 13);
    Next4(13, 4422619, 1, 13, 2, 169, 5, 371293, 11, 187143, 22, 4205207);
    Next4(13, 4422619, 22, 4205207, 44, 3448491, 89, 817816, 179, 2656269, 359, 3849453);
    Next4(13, 4422619, 359, 3849453, 719, 4162688, 1439, 1488493, 2879, 826382, 5758, 1764896);
    Next4(13, 4422619, 5758, 1764896, 11517, 2403509, 23034, 4039567, 46068, 4026760, 92137, 913435);
    Next4(13, 4422619, 92137, 913435, 184275, 303142, 368551, 2516471, 737103, 3640854, 1474206, 3640853);
  }

  lemma Power4422619At2211309()
    ensures Pow(13, 2211309, 4422619) == 4422618
  {
    hide Pow;
    PowZero(13, 4422619);
    Next4(13, 4422619, 0, 1, 0, 1, 0, 1, 1, 13, 2, 169);
    Next4(13, 4422619, 2, 169, 4, 28561, 8, 1968825, 16, 1118790, 33, 960884);
    Next4(13, 4422619, 33, 960884, 67, 1821022, 134, 1594713, 269, 2679621, 539, 1444058);
    Next4(13, 4422619, 539, 1444058, 1079, 2679285, 2159, 2665017, 4318, 799856, 8637, 260309);
    Next4(13, 4422619, 8637, 260309, 17275, 1674071, 34551, 935619, 69103, 4243623, 138206, 2115980);
    Next4(13, 4422619, 138206, 2115980, 276413, 4383340, 552827, 340768, 1105654, 2545360, 2211309, 4422618);
  }

  lemma Prime4422619()
    ensures Prime(4422619)
  {
    hide Prime, Pow, Witness;
    TrialDivision(2);
    TrialDivision(3);
    TrialDivision(17);
    TrialDivision(97);
    TrialDivision(149);
    Power4422619At29682();
    Power4422619At45594();
    Power4422619At260154();
    Power4422619At1474206();
    Power4422619At2211309();
    Next(13, 4422619, 2211309, 4422618, 4422618, 1);
    var qs := NoWitness(4422619, 13);
    qs := AddWitness(4422619, 13, 1, qs, 149, 29682, 1281540, 149);
    qs := AddWitness(4422619, 13, 149, qs, 97, 45594, 1939130, 14453);
    qs := AddWitness(4422619, 13, 14453, qs, 17, 260154, 3911461, 245701);
    qs := AddWitness(4422619, 13, 245701, qs, 3, 1474206, 3640853, 737103);
    qs := AddWitness(4422619, 13, 737103, qs, 3, 1474206, 3640853, 2211309);
    qs := AddWitness(4422619, 13, 2211309, qs, 2, 2211309, 4422618, 4422618);
    Lucas(4422619, 13, qs);
  }

  lemma Power3191At110()
    ensures Pow(11, 110, 3191) == 1079
  {
    hide Pow;
    PowZero(11, 3191);
    Next4(11, 3191, 0, 1, 0, 1, 1, 11, 3, 1331, 6, 556);
    Next4(11, 3191, 6, 556, 13, 2081, 27, 923, 55, 2443, 110, 1079);
  }

  lemma Power3191At290()
    ensures Pow(11, 290, 3191) == 1024
  {
    hide Pow;
    PowZero(11, 3191);
    Next4(11, 3191, 0, 1, 0, 1, 0, 1, 0, 1, 1, 11);
    Next4(11, 3191, 1, 11, 2, 121, 4, 1877, 9, 2915, 18, 2783);
    Next4(11, 3191, 18, 2783, 36, 532, 72, 2216, 145, 3159, 290, 1024);
  }

  lemma Power3191At638()
    ensures Pow(11, 638, 3191) == 1330
  {
    hide Pow;
    PowZero(11, 3191);
    Next4(11, 3191, 0, 1, 0, 1, 0, 1, 1, 11, 2, 121);
    Next4(11, 3191, 2, 121, 4, 1877, 9, 2915, 19, 1894, 39, 2881);
    Next4(11, 3191, 39, 2881, 79, 879, 159, 1418, 319, 1143, 638, 1330);
  }

  lemma Power3191At1595()
    ensures Pow(11, 1595, 3191) == 3190
  {
    hide Pow;
    PowZero(11, 3191);
    Next4(11, 3191, 0, 1, 0, 1, 1, 11, 3, 1331, 6, 556);
    Next4(11, 3191, 6, 556, 12, 2800, 24, 2904, 49, 3006, 99, 3128);
    Next4(11, 3191, 99, 3128, 199, 2176, 398, 2723, 797, 59, 1595, 3190);
  }

  lemma Prime3191()
    ensures Prime(3191)
  {
    hide Prime, Pow, Witness;
    TrialDivision(2);
    TrialDivision(5);
    TrialDivision(11);
    TrialDivision(29);
    Power3191At110();
    Power3191At290();
    Power3191At638();
    Power3191At1595();
    Next(11, 3191, 1595, 3190, 3190, 1);
    var qs := NoWitness(3191, 11);
    qs := AddWitness(3191, 11, 1, qs, 29, 110, 1079, 29);
    qs := AddWitness(3191, 11, 29, qs, 11, 290, 1024, 319);
    qs := AddWitness(3191, 11, 319, qs, 5, 638, 1330, 1595);
    qs := AddWitness(3191, 11, 1595, qs, 2, 1595, 3190, 3190);
    Lucas(3191, 11, qs);
  }

  lemma Power8845453At2772()
    ensures Pow(6, 2772, 8845453) == 3997596
  {
    hide Pow;
    PowZero(6, 8845453);
    Next4(6, 8845453, 0, 1, 1, 6, 2, 36, 5, 7776, 10, 7393458);
    Next4(6, 8845453, 10, 7393458, 21, 4917551, 43, 6230570, 86, 7171065, 173, 4446);
    Next4(6, 8845453, 173, 4446, 346, 2076010, 693, 1674964, 1386, 918739, 2772, 3997596);
  }

  lemma Power8845453At804132()
    ensures Pow(6, 804132, 8845453) == 3005573
  {
    hide Pow;
    PowZero(6, 8845453);
    Next4(6, 8845453, 0, 1, 1, 6, 3, 216, 6, 46656, 12, 800898);
    Next4(6, 8845453, 12, 800898, 24, 736656, 49, 5351981, 98, 901641, 196, 6289463);
    Next4(6, 8845453, 196, 6289463, 392, 1357907, 785, 493238, 1570, 7230785, 3141, 7079887);
    Next4(6, 8845453, 3141, 7079887, 6282, 6054079, 12564, 3860142, 25129, 8572357, 50258, 5410973);
    Next4(6, 8845453, 50258, 5410973, 100516, 2467669, 201033, 3544900, 402066, 5514644, 804132, 3005573);
  }

  lemma Power8845453At1263636()
    ensures Pow(6, 1263636, 8845453) == 6546188
  {
    hide Pow;
    PowZero(6, 8845453);
    Next4(6, 8845453, 0, 1, 0, 1, 0, 1, 0, 1, 1, 6);
    Next4(6, 8845453, 1, 6, 2, 36, 4, 1296, 9, 1232243, 19, 3330790);
    Next4(6, 8845453, 19, 3330790, 38, 271534, 77, 5483500, 154, 8130809, 308, 6126875);
    Next4(6, 8845453, 308, 6126875, 617, 8454716, 1234, 2884389, 2468, 2938735, 4936, 2663658);
    Next4(6, 8845453, 4936, 2663658, 9872, 3407869, 19744, 4368435, 39488, 8665213, 78977, 343292);
    Next4(6, 8845453, 78977, 343292, 157954, 1426945, 315909, 2105405, 631818, 8352135, 1263636, 6546188);
  }

  lemma Power8845453At2948484()
    ensures Pow(6, 2948484, 8845453) == 7198066
  {
    hide Pow;
    PowZero(6, 8845453);
    Next4(6, 8845453, 0, 1, 0, 1, 0, 1, 1, 6, 2, 36);
    Next4(6, 8845453, 2, 36, 5, 7776, 11, 133483, 22, 2968947, 44, 2001608);
    Next4(6, 8845453, 44, 2001608, 89, 995765, 179, 3987157, 359, 7812138, 719, 5009211);
    Next4(6, 8845453, 719, 5009211, 1439, 3123020, 2879, 5546778, 5758, 5056769, 11517, 6040447);
    Next4(6, 8845453, 11517, 6040447, 23035, 1235609, 46070, 4413081, 92140, 2369777, 184280, 6447277);
    Next4(6, 8845453, 184280, 6447277, 368560, 5350000, 737121, 8123273, 1474242, 7198067, 2948484, 7198066);
  }

  lemma Power8845453At4422726()
    ensures Pow(6, 4422726, 8845453) == 8845452
  {
    hide Pow;
    PowZero(6, 8845453);
    Next4(6, 8845453, 0, 1, 0, 1, 1, 6, 2, 36, 4, 1296);
    Next4(6, 8845453, 4, 1296, 8, 1679616, 16, 3045807, 33, 1121642, 67, 5048562);
    Next4(6, 8845453, 67, 5048562, 134, 48310, 269, 784501, 539, 1568267, 1079, 5205270);
    Next4(6, 8845453, 1079, 5205270, 2159, 8441034, 4319, 4964093, 8638, 7927163, 17276, 1798704);
    Next4(6, 8845453, 17276, 1798704, 34552, 5499430, 69105, 1181308, 138210, 3389225, 276420, 8153030);
    Next4(6, 8845453, 276420, 8153030, 552840, 8367423, 1105681, 4334041, 2211363, 4638433, 4422726, 8845452);
  }

  lemma Prime8845453()
    ensures Prime(8845453)
  {
    hide Prime, Pow, Witness;
    TrialDivision(2);
    TrialDivision(3);
    TrialDivision(7);
    TrialDivision(11);
    Prime3191();
    Power8845453At2772();
    Power8845453At804132();
    Power8845453At1263636();
    Power8845453At2948484();
    Power8845453At4422726();
    Next(6, 8845453, 4422726, 8845452, 8845452, 1);
    var qs := NoWitness(8845453, 6);
    qs := AddWitness(8845453, 6, 1, qs, 3191, 2772, 3997596, 3191);
    qs := AddWitness(8845453, 6, 3191, qs, 11, 804132, 3005573, 35101);
    qs := AddWitness(8845453, 6, 35101, qs, 7, 1263636, 6546188, 245707);
    qs := AddWitness(8845453, 6, 245707, qs, 3, 2948484, 7198066, 737121);
    qs := AddWitness(8845453, 6, 737121, qs, 3, 2948484, 7198066, 2211363);
    qs := AddWitness(8845453, 6, 2211363, qs, 2, 4422726, 8845452, 4422726);
    qs := AddWitness(8845453, 6, 4422726, qs, 2, 4422726, 8845452, 8845452);
    Lucas(8845453, 6, qs);
  }

  lemma Power18089At952()
    ensures Pow(3, 952, 18089) == 3461
  {
    hide Pow;
    PowZero(3, 18089);
    Next4(3, 18089, 0, 1, 0, 1, 0, 1, 1, 3, 3, 27);
    Next4(3, 18089, 3, 27, 7, 2187, 14, 7473, 29, 14958, 59, 14858);
    Next4(3, 18089, 59, 14858, 119, 6024, 238, 2042, 476, 9294, 952, 3461);
  }

  lemma Power18089At1064()
    ensures Pow(3, 1064, 18089) == 8094
  {
    hide Pow;
    PowZero(3, 18089);
    Next4(3, 18089, 0, 1, 0, 1, 1, 3, 2, 9, 4, 81);
    Next4(3, 18089, 4, 81, 8, 6561, 16, 12990, 33, 17724, 66, 6602);
    Next4(3, 18089, 66, 6602, 133, 11920, 266, 15394, 532, 9336, 1064, 8094);
  }

  lemma Power18089At2584()
    ensures Pow(3, 2584, 18089) == 232
  {
    hide Pow;
    PowZero(3, 18089);
    Next4(3, 18089, 0, 1, 1, 3, 2, 9, 5, 243, 10, 4782);
    Next4(3, 18089, 10, 4782, 20, 3028, 40, 15750, 80, 8043, 161, 10755);
    Next4(3, 18089, 161, 10755, 323, 8788, 646, 7003, 1292, 2730, 2584, 232);
  }

  lemma Power18089At9044()
    ensures Pow(3, 9044, 18089) == 18088
  {
    hide Pow;
    PowZero(3, 18089);
    Next4(3, 18089, 0, 1, 0, 1, 0, 1, 1, 3, 2, 9);
    Next4(3, 18089, 2, 9, 4, 81, 8, 6561, 17, 2792, 35, 14804);
    Next4(3, 18089, 35, 14804, 70, 10181, 141, 8373, 282, 12254, 565, 11181);
    Next4(3, 18089, 565, 11181, 1130, 1682, 2261, 3631, 4522, 15369, 9044, 18088);
  }

  lemma Prime18089()
    ensures Prime(18089)
  {
    hide Prime, Pow, Witness;
    TrialDivision(2);
    TrialDivision(7);
    TrialDivision(17);
    TrialDivision(19);
    Power18089At952();
    Power18089At1064();
    Power18089At2584();
    Power18089At9044();
    Next(3, 18089, 9044, 18088, 18088, 1);
    var qs := NoWitness(18089, 3);
    qs := AddWitness(18089, 3, 1, qs, 19, 952, 3461, 19);
    qs := AddWitness(18089, 3, 19, qs, 17, 1064, 8094, 323);
    qs := AddWitness(18089, 3, 323, qs, 7, 2584, 232, 2261);
    qs := AddWitness(18089, 3, 2261, qs, 2, 9044, 18088, 4522);
    qs := AddWitness(18089, 3, 4522, qs, 2, 9044, 18088, 9044);
    qs := AddWitness(18089, 3, 9044, qs, 2, 9044, 18088, 18088);
    Lucas(18089, 3, qs);
  }

  lemma Power17691043At978()
    ensures Pow(3, 978, 17691043) == 10041186
  {
    hide Pow;
    PowZero(3, 17691043);
    Next4(3, 17691043, 0, 1, 0, 1, 0, 1, 1, 3, 3, 27);
    Next4(3, 17691043, 3, 27, 7, 2187, 15, 14348907, 30, 13857941, 61, 786820);
    Next4(3, 17691043, 61, 786820, 122, 5353658, 244, 6013718, 489, 4722139, 978, 10041186);
  }

  lemma Power17691043At108534()
    ensures Pow(3, 108534, 17691043) == 4916891
  {
    hide Pow;
    PowZero(3, 17691043);
    Next4(3, 17691043, 0, 1, 0, 1, 0, 1, 0, 1, 1, 3);
    Next4(3, 17691043, 1, 3, 3, 27, 6, 729, 13, 1594323, 26, 16770089);
    Next4(3, 17691043, 26, 16770089, 52, 12286610, 105, 5248596, 211, 14815223, 423, 6469334);
    Next4(3, 17691043, 423, 6469334, 847, 12213154, 1695, 11449227, 3391, 7244114, 6783, 15049525);
    Next4(3, 17691043, 6783, 15049525, 13566, 4619479, 27133, 4479793, 54267, 9162237, 108534, 4916891);
  }

  lemma Power17691043At5897014()
    ensures Pow(3, 5897014, 17691043) == 13875829
  {
    hide Pow;
    PowZero(3, 17691043);
    Next4(3, 17691043, 0, 1, 0, 1, 1, 3, 2, 9, 5, 243);
    Next4(3, 17691043, 5, 243, 11, 177147, 22, 14840370, 44, 9024008, 89, 855000);
    Next4(3, 17691043, 89, 855000, 179, 4854505, 359, 12008347, 719, 13304110, 1439, 10820989);
    Next4(3, 17691043, 1439, 10820989, 2879, 9581798, 5758, 876564, 11517, 3508517, 23035, 13053775);
    Next4(3, 17691043, 23035, 13053775, 46070, 13331432, 92140, 12934701, 184281, 7109476, 368563, 1563967);
    Next4(3, 17691043, 368563, 1563967, 737126, 11480866, 1474253, 4625277, 2948507, 13875830, 5897014, 13875829);
  }

  lemma Power17691043At8845521()
    ensures Pow(3, 8845521, 17691043) == 17691042
  {
    hide Pow;
    PowZero(3, 17691043);
    Next4(3, 17691043, 0, 1, 1, 3, 2, 9, 4, 81, 8, 6561);
    Next4(3, 17691043, 8, 6561, 16, 7664635, 33, 2652504, 67, 7478404, 134, 9061746);
    Next4(3, 17691043, 134, 9061746, 269, 91536, 539, 15236828, 1079, 6315776, 2159, 17248746);
    Next4(3, 17691043, 2159, 17248746, 4319, 14939188, 8638, 1911746, 17276, 15577232, 34552, 5595297);
    Next4(3, 17691043, 34552, 5595297, 69105, 15210939, 138211, 16696083, 276422, 7708449, 552845, 628172);
    Next4(3, 17691043, 552845, 628172, 1105690, 1347469, 2211380, 5580785, 4422760, 9250553, 8845521, 17691042);
  }

  lemma Prime17691043()
    ensures Prime(17691043)
  {
    hide Prime, Pow, Witness;
    TrialDivision(2);
    TrialDivision(3);
    TrialDivision(163);
    Prime18089();
    Power17691043At978();
    Power17691043At108534();
    Power17691043At5897014();
    Power17691043At8845521();
    Next(3, 17691043, 8845521, 17691042, 17691042, 1);
    var qs := NoWitness(17691043, 3);
    qs := AddWitness(17691043, 3, 1, qs, 18089, 978, 10041186, 18089);
    qs := AddWitness(17691043, 3, 18089, qs, 163, 108534, 4916891, 2948507);
    qs := AddWitness(17691043, 3, 2948507, qs, 3, 5897014, 13875829, 8845521);
    qs := AddWitness(17691043, 3, 8845521, qs, 2, 8845521, 17691042, 17691042);
    Lucas(17691043, 3, qs);
  }

  lemma Power28081At2160()
    ensures Pow(19, 2160, 28081) == 25022
  {
    hide Pow;
    PowZero(19, 28081);
    Next4(19, 28081, 0, 1, 1, 19, 2, 361, 4, 17997, 8, 5755);
    Next4(19, 28081, 8, 5755, 16, 12526, 33, 5803, 67, 23867, 135, 4909);
    Next4(19, 28081, 135, 4909, 270, 4783, 540, 19155, 1080, 7679, 2160, 25022);
  }

  lemma Power28081At5616()
    ensures Pow(19, 5616, 28081) == 3031
  {
    hide Pow;
    PowZero(19, 28081);
    Next4(19, 28081, 0, 1, 0, 1, 0, 1, 0, 1, 1, 19);
    Next4(19, 28081, 1, 19, 2, 361, 5, 4971, 10, 27642, 21, 11169);
    Next4(19, 28081, 21, 11169, 43, 7854, 87, 4307, 175, 10100, 351, 11299);
    Next4(19, 28081, 351, 11299, 702, 11175, 1404, 4418, 2808, 2429, 5616, 3031);
  }

  lemma Power28081At9360()
    ensures Pow(19, 9360, 28081) == 1765
  {
    hide Pow;
    PowZero(19, 28081);
    Next4(19, 28081, 0, 1, 0, 1, 0, 1, 1, 19, 2, 361);
    Next4(19, 28081, 2, 361, 4, 17997, 9, 25102, 18, 845, 36, 12000);
    Next4(19, 28081, 36, 12000, 73, 12008, 146, 24210, 292, 17468, 585, 26601);
    Next4(19, 28081, 585, 26601, 1170, 82, 2340, 6724, 4680, 1766, 9360, 1765);
  }

  lemma Power28081At14040()
    ensures Pow(19, 14040, 28081) == 28080
  {
    hide Pow;
    PowZero(19, 28081);
    Next4(19, 28081, 0, 1, 0, 1, 0, 1, 1, 19, 3, 6859);
    Next4(19, 28081, 3, 6859, 6, 10206, 13, 21647, 27, 10035, 54, 2759);
    Next4(19, 28081, 54, 2759, 109, 12389, 219, 19168, 438, 420, 877, 9961);
    Next4(19, 28081, 877, 9961, 1755, 19045, 3510, 17829, 7020, 24402, 14040, 28080);
  }

  lemma Prime28081()
    ensures Prime(28081)
  {
    hide Prime, Pow, Witness;
    TrialDivision(2);
    TrialDivision(3);
    TrialDivision(5);
    TrialDivision(13);
    Power28081At2160();
    Power28081At5616();
    Power28081At9360();
    Power28081At14040();
    Next(19, 28081, 14040, 28080, 28080, 1);
    var qs := NoWitness(28081, 19);
    qs := AddWitness(28081, 19, 1, qs, 13, 2160, 25022, 13);
    qs := AddWitness(28081, 19, 13, qs, 5, 5616, 3031, 65);
    qs := AddWitness(28081, 19, 65, qs, 3, 9360, 1765, 195);
    qs := AddWitness(28081, 19, 195, qs, 3, 9360, 1765, 585);
    qs := AddWitness(28081, 19, 585, qs, 3, 9360, 1765, 1755);
    qs := AddWitness(28081, 19, 1755, qs, 2, 14040, 28080, 3510);
    qs := AddWitness(28081, 19, 3510, qs, 2, 14040, 28080, 7020);
    qs := AddWitness(28081, 19, 7020, qs, 2, 14040, 28080, 14040);
    qs := AddWitness(28081, 19, 14040, qs, 2, 14040, 28080, 28080);
    Lucas(28081, 19, qs);
  }

  lemma Power1179403At42()
    ensures Pow(3, 42, 1179403) == 1168194
  {
    hide Pow;
    PowZero(3, 1179403);
    Next4(3, 1179403, 0, 1, 0, 1, 0, 1, 1, 3, 2, 9);
    Next4(3, 1179403, 2, 9, 5, 243, 10, 59049, 21, 227996, 42, 1168194);
  }

  lemma Power1179403At168486()
    ensures Pow(3, 168486, 1179403) == 1164332
  {
    hide Pow;
    PowZero(3, 1179403);
    Next4(3, 1179403, 0, 1, 0, 1, 0, 1, 1, 3, 2, 9);
    Next4(3, 1179403, 2, 9, 5, 243, 10, 59049, 20, 469133, 41, 389398);
    Next4(3, 1179403, 41, 389398, 82, 855709, 164, 822519, 329, 302040, 658, 160147);
    Next4(3, 1179403, 658, 160147, 1316, 943374, 2632, 588136, 5265, 1160505, 10530, 954698);
    Next4(3, 1179403, 10530, 954698, 21060, 915192, 42121, 484465, 84243, 85436, 168486, 1164332);
  }

  lemma Power1179403At393134()
    ensures Pow(3, 393134, 1179403) == 147660
  {
    hide Pow;
    PowZero(3, 1179403);
    Next4(3, 1179403, 0, 1, 0, 1, 1, 3, 2, 9, 5, 243);
    Next4(3, 1179403, 5, 243, 11, 177147, 23, 872561, 47, 814422, 95, 940354);
    Next4(3, 1179403, 95, 940354, 191, 1150138, 383, 580941, 767, 1140048, 1535, 779658);
    Next4(3, 1179403, 1535, 779658, 3071, 975277, 6142, 295289, 12285, 1092178, 24570, 1051275);
    Next4(3, 1179403, 24570, 1051275, 49141, 842678, 98283, 737048, 196567, 147661, 393134, 147660);
  }

  lemma Power1179403At589701()
    ensures Pow(3, 589701, 1179403) == 1179402
  {
    hide Pow;
    PowZero(3, 1179403);
    Next4(3, 1179403, 0, 1, 1, 3, 2, 9, 4, 81, 8, 6561);
    Next4(3, 1179403, 8, 6561, 17, 585236, 35, 557070, 71, 326202, 143, 121417);
    Next4(3, 1179403, 143, 121417, 287, 1009973, 575, 747043, 1151, 561703, 2303, 902977);
    Next4(3, 1179403, 2303, 902977, 4607, 515736, 9214, 1118927, 18428, 17873, 36856, 1005319);
    Next4(3, 1179403, 36856, 1005319, 73712, 478971, 147425, 215276, 294850, 294694, 589701, 1179402);
  }

  lemma Prime1179403()
    ensures Prime(1179403)
  {
    hide Prime, Pow, Witness;
    TrialDivision(2);
    TrialDivision(3);
    TrialDivision(7);
    Prime28081();
    Power1179403At42();
    Power1179403At168486();
    Power1179403At393134();
    Power1179403At589701();
    Next(3, 1179403, 589701, 1179402, 1179402, 1);
    var qs := NoWitness(1179403, 3);
    qs := AddWitness(1179403, 3, 1, qs, 28081, 42, 1168194, 28081);
    qs := AddWitness(1179403, 3, 28081, qs, 7, 168486, 1164332, 196567);
    qs := AddWitness(1179403, 3, 196567, qs, 3, 393134, 147660, 589701);
    qs := AddWitness(1179403, 3, 589701, qs, 2, 589701, 1179402, 1179402);
    Lucas(1179403, 3, qs);
  }

  lemma Power35382091At30()
    ensures Pow(2, 30, 35382091) == 12279094
  {
    hide Pow;
    PowZero(2, 35382091);
    Next4(2, 35382091, 0, 1, 0, 1, 0, 1, 0, 1, 1, 2);
    Next4(2, 35382091, 1, 2, 3, 8, 7, 128, 15, 32768, 30, 12279094);
  }

  lemma Power35382091At7076418()
    ensures Pow(2, 7076418, 35382091) == 23743459
  {
    hide Pow;
    PowZero(2, 35382091);
    Next4(2, 35382091, 0, 1, 0, 1, 1, 2, 3, 8, 6, 64);
    Next4(2, 35382091, 6, 64, 13, 8192, 26, 31726773, 53, 21313588, 107, 24703951);
    Next4(2, 35382091, 107, 24703951, 215, 22546271, 431, 23037792, 863, 7066848, 1727, 10512852);
    Next4(2, 35382091, 1727, 10512852, 3455, 18607787, 6910, 28397913, 13821, 1969072, 27642, 4245222);
    Next4(2, 35382091, 27642, 4245222, 55284, 6396343, 110569, 14796148, 221138, 15217224, 442276, 9053752);
    Next4(2, 35382091, 442276, 9053752, 884552, 27415984, 1769104, 19064219, 3538209, 28444015, 7076418, 23743459);
  }

  lemma Power35382091At11794030()
    ensures Pow(2, 11794030, 35382091) == 9826348
  {
    hide Pow;
    PowZero(2, 35382091);
    Next4(2, 35382091, 0, 1, 1, 2, 2, 4, 5, 32, 11, 2048);
    Next4(2, 35382091, 11, 2048, 22, 4194304, 44, 33488761, 89, 30024743, 179, 7559812);
    Next4(2, 35382091, 179, 7559812, 359, 23796098, 719, 6606848, 1439, 29591174, 2879, 32254453);
    Next4(2, 35382091, 2879, 32254453, 5758, 32760274, 11517, 31158655, 23035, 16253349, 46070, 29079597);
    Next4(2, 35382091, 46070, 29079597, 92140, 9215614, 184281, 29031938, 368563, 9484148, 737126, 3903884);
    Next4(2, 35382091, 737126, 3903884, 1474253, 10637142, 2948507, 23832526, 5897015, 9826349, 11794030, 9826348);
  }

  lemma Power35382091At17691045()
    ensures Pow(2, 17691045, 35382091) == 35382090
  {
    hide Pow;
    PowZero(2, 35382091);
    Next4(2, 35382091, 0, 1, 0, 1, 0, 1, 0, 1, 1, 2);
    Next4(2, 35382091, 1, 2, 2, 4, 4, 16, 8, 256, 16, 65536);
    Next4(2, 35382091, 16, 65536, 33, 27468570, 67, 15969713, 134, 27356557, 269, 18081423);
    Next4(2, 35382091, 269, 18081423, 539, 25544184, 1079, 24871315, 2159, 16122828, 4319, 23947384);
    Next4(2, 35382091, 4319, 23947384, 8638, 23664536, 17276, 6500250, 34552, 27754482, 69105, 3116699);
    Next4(2, 35382091, 69105, 3116699, 138211, 26786922, 276422, 8682836, 552845, 24462922, 1105690, 16616767);
    Next4(2, 35382091, 1105690, 16616767, 2211380, 25478938, 4422761, 11373398, 8845522, 17173502, 17691045,
        35382090);
  }

  lemma Prime35382091()
    ensures Prime(35382091)
  {
    hide Prime, Pow, Witness;
    TrialDivision(2);
    TrialDivision(3);
    TrialDivision(5);
    Prime1179403();
    Power35382091At30();
    Power35382091At7076418();
    Power35382091At11794030();
    Power35382091At17691045();
    Next(2, 35382091, 17691045, 35382090, 35382090, 1);
    var qs := NoWitness(35382091, 2);
    qs := AddWitness(35382091, 2, 1, qs, 1179403, 30, 12279094, 1179403);
    qs := AddWitness(35382091, 2, 1179403, qs, 5, 7076418, 23743459, 5897015);
    qs := AddWitness(35382091, 2, 5897015, qs, 3, 11794030, 9826348, 17691045);
    qs := AddWitness(35382091, 2, 17691045, qs, 2, 17691045, 35382090, 35382090);
    Lucas(35382091, 2, qs);
  }

  lemma Power380453At908()
    ensures Pow(2, 908, 380453) == 372266
  {
    hide Pow;
    PowZero(2, 380453);
    Next4(2, 380453, 0, 1, 0, 1, 0, 1, 1, 2, 3, 8);
    Next4(2, 380453, 3, 8, 7, 128, 14, 16384, 28, 216091, 56, 40873);
    Next4(2, 380453, 56, 40873, 113, 66012, 227, 131417, 454, 144407, 908, 372266);
  }

  lemma Power380453At1676()
    ensures Pow(2, 1676, 380453) == 210200
  {
    hide Pow;
    PowZero(2, 380453);
    Next4(2, 380453, 0, 1, 0, 1, 1, 2, 3, 8, 6, 64);
    Next4(2, 380453, 6, 64, 13, 8192, 26, 149136, 52, 264116, 104, 62547);
    Next4(2, 380453, 104, 62547, 209, 238473, 419, 36390, 838, 255660, 1676, 210200);
  }

  lemma Power380453At190226()
    ensures Pow(2, 190226, 380453) == 380452
  {
    hide Pow;
    PowZero(2, 380453);
    Next4(2, 380453, 0, 1, 0, 1, 0, 1, 1, 2, 2, 4);
    Next4(2, 380453, 2, 4, 5, 32, 11, 2048, 23, 18642, 46, 170575);
    Next4(2, 380453, 46, 170575, 92, 306997, 185, 18527, 371, 162246, 743, 62439);
    Next4(2, 380453, 743, 62439, 1486, 126830, 2972, 296060, 5944, 98289, 11889, 149437);
    Next4(2, 380453, 11889, 149437, 23778, 347681, 47556, 365618, 95113, 350782, 190226, 380452);
  }

  lemma Prime380453()
    ensures Prime(380453)
  {
    hide Prime, Pow, Witness;
    TrialDivision(2);
    TrialDivision(227);
    TrialDivision(419);
    Power380453At908();
    Power380453At1676();
    Power380453At190226();
    Next(2, 380453, 190226, 380452, 380452, 1);
    var qs := NoWitness(380453, 2);
    qs := AddWitness(380453, 2, 1, qs, 419, 908, 372266, 419);
    qs := AddWitness(380453, 2, 419, qs, 227, 1676, 210200, 95113);
    qs := AddWitness(380453, 2, 95113, qs, 2, 190226, 380452, 190226);
    qs := AddWitness(380453, 2, 190226, qs, 2, 190226, 380452, 380452);
    Lucas(380453, 2, qs);
  }

  lemma Power70764259At186()
    ensures Pow(11, 186, 70764259) == 55418919
  {
    hide Pow;
    PowZero(11, 70764259);
    Next4(11, 70764259, 0, 1, 1, 11, 2, 121, 5, 161051, 11, 60942582);
    Next4(11, 70764259, 11, 60942582, 23, 33071021, 46, 24684776, 93, 50415195, 186, 55418919);
  }

  lemma Power70764259At2282718()
    ensures Pow(11, 2282718, 70764259) == 44278340
  {
    hide Pow;
    PowZero(11, 70764259);
    Next4(11, 70764259, 0, 1, 0, 1, 0, 1, 1, 11, 2, 121);
    Next4(11, 70764259, 2, 121, 4, 14641, 8, 2066104, 17, 28367900, 34, 15985913);
    Next4(11, 70764259, 34, 15985913, 69, 30036237, 139, 9500569, 278, 8269635, 557, 864479);
    Next4(11, 70764259, 557, 864479, 1114, 53366401, 2229, 44964918, 4458, 64922123, 8916, 30991429);
    Next4(11, 70764259, 8916, 30991429, 17833, 1001899, 35667, 45750887, 71334, 1785797, 142669, 26356006);
    Next4(11, 70764259, 142669, 26356006, 285339, 66100751, 570679, 60410584, 1141359, 41124094, 2282718, 44278340);
  }

  lemma Power70764259At23588086()
    ensures Pow(11, 23588086, 70764259) == 67901049
  {
    hide Pow;
    PowZero(11, 70764259);
    Next4(11, 70764259, 0, 1, 0, 1, 0, 1, 0, 1, 1, 11);
    Next4(11, 70764259, 1, 11, 2, 121, 5, 161051, 11, 60942582, 22, 67337601);
    Next4(11, 70764259, 22, 67337601, 44, 788835, 89, 52749182, 179, 52336393, 359, 48955018);
    Next4(11, 70764259, 359, 48955018, 719, 35886210, 1439, 4262236, 2879, 40527304, 5758, 70563133);
    Next4(11, 70764259, 5758, 70563133, 11517, 2686044, 23035, 48901170, 46070, 65198707, 92140, 13029670);
    Next4(11, 70764259, 92140, 13029670, 184281, 42555034, 368563, 4762346, 737127, 9320635, 1474255, 58576941);
    Next4(11, 70764259, 1474255, 58576941, 2948510, 7840815, 5897021, 69924284, 11794043, 67901050, 23588086,
        67901049);
  }

  lemma Power70764259At35382129()
    ensures Pow(11, 35382129, 70764259) == 70764258
  {
    hide Pow;
    PowZero(11, 70764259);
    Next4(11, 70764259, 0, 1, 0, 1, 0, 1, 1, 11, 2, 121);
    Next4(11, 70764259, 2, 121, 4, 14641, 8, 2066104, 16, 2578900, 33, 46485066);
    Next4(11, 70764259, 33, 46485066, 67, 51713149, 134, 2847748, 269, 10555777, 539, 40542987);
    Next4(11, 70764259, 539, 40542987, 1079, 41042914, 2159, 46430194, 4319, 13048758, 8638, 26671383);
    Next4(11, 70764259, 8638, 26671383, 17276, 4037059, 34552, 58114932, 69105, 24660002, 138211, 27428296);
    Next4(11, 70764259, 138211, 27428296, 276422, 25198010, 552845, 26775009, 1105691, 47955127, 2211383, 62105681);
    Next4(11, 70764259, 2211383, 62105681, 4422766, 61841570, 8845532, 58703145, 17691064, 29873401, 35382129,
        70764258);
  }

  lemma Prime70764259()
    ensures Prime(70764259)
  {
    hide Prime, Pow, Witness;
    TrialDivision(2);
    TrialDivision(3);
    TrialDivision(31);
    Prime380453();
    Power70764259At186();
    Power70764259At2282718();
    Power70764259At23588086();
    Power70764259At35382129();
    Next(11, 70764259, 35382129, 70764258, 70764258, 1);
    var qs := NoWitness(70764259, 11);
    qs := AddWitness(70764259, 11, 1, qs, 380453, 186, 55418919, 380453);
    qs := AddWitness(70764259, 11, 380453, qs, 31, 2282718, 44278340, 11794043);
    qs := AddWitness(70764259, 11, 11794043, qs, 3, 23588086, 67901049, 35382129);
    qs := AddWitness(70764259, 11, 35382129, qs, 2, 35382129, 70764258, 70764258);
    Lucas(70764259, 11, qs);
  }

  lemma Power1811At10()
    ensures Pow(6, 10, 1811) == 508
  {
    hide Pow;
    PowZero(6, 1811);
    Next4(6, 1811, 0, 1, 1, 6, 2, 36, 5, 532, 10, 508);
  }

  lemma Power1811At362()
    ensures Pow(6, 362, 1811) == 1040
  {
    hide Pow;
    PowZero(6, 1811);
    Next4(6, 1811, 0, 1, 0, 1, 0, 1, 0, 1, 1, 6);
    Next4(6, 1811, 1, 6, 2, 36, 5, 532, 11, 1237, 22, 1685);
    Next4(6, 1811, 22, 1685, 45, 1084, 90, 1528, 181, 619, 362, 1040);
  }

  lemma Power1811At905()
    ensures Pow(6, 905, 1811) == 1810
  {
    hide Pow;
    PowZero(6, 1811);
    Next4(6, 1811, 0, 1, 0, 1, 0, 1, 1, 6, 3, 216);
    Next4(6, 1811, 3, 216, 7, 1042, 14, 975, 28, 1661, 56, 768);
    Next4(6, 1811, 56, 768, 113, 250, 226, 926, 452, 873, 905, 1810);
  }

  lemma Prime1811()
    ensures Prime(1811)
  {
    hide Prime, Pow, Witness;
    TrialDivision(2);
    TrialDivision(5);
    TrialDivision(181);
    Power1811At10();
    Power1811At362();
    Power1811At905();
    Next(6, 1811, 905, 1810, 1810, 1);
    var qs := NoWitness(1811, 6);
    qs := AddWitness(1811, 6, 1, qs, 181, 10, 508, 181);
    qs := AddWitness(1811, 6, 181, qs, 5, 362, 1040, 905);
    qs := AddWitness(1811, 6, 905, qs, 2, 905, 1810, 1810);
    Lucas(1811, 6, qs);
  }

  lemma Power14489At8()
    ensures Pow(3, 8, 14489) == 6561
  {
    hide Pow;
    PowZero(3, 14489);
    Next4(3, 14489, 0, 1, 1, 3, 2, 9, 4, 81, 8, 6561);
  }

  lemma Power14489At7244()
    ensures Pow(3, 7244, 14489) == 14488
  {
    hide Pow;
    PowZero(3, 14489);
    Next4(3, 14489, 0, 1, 0, 1, 0, 1, 0, 1, 1, 3);
    Next4(3, 14489, 1, 3, 3, 27, 7, 2187, 14, 1599, 28, 6737);
    Next4(3, 14489, 28, 6737, 56, 7621, 113, 8698, 226, 8135, 452, 6962);
    Next4(3, 14489, 452, 6962, 905, 11217, 1811, 10328, 3622, 14055, 7244, 14488);
  }

  lemma Prime14489()
    ensures Prime(14489)
  {
    hide Prime, Pow, Witness;
    TrialDivision(2);
    Prime1811();
    Power14489At8();
    Power14489At7244();
    Next(3, 14489, 7244, 14488, 14488, 1);
    var qs := NoWitness(14489, 3);
    qs := AddWitness(14489, 3, 1, qs, 1811, 8, 6561, 1811);
    qs := AddWitness(14489, 3, 1811, qs, 2, 7244, 14488, 3622);
    qs := AddWitness(14489, 3, 3622, qs, 2, 7244, 14488, 7244);
    qs := AddWitness(14489, 3, 7244, qs, 2, 7244, 14488, 14488);
    Lucas(14489, 3, qs);
  }

  lemma Power23588093At1628()
    ensures Pow(2, 1628, 23588093) == 7830189
  {
    hide Pow;
    PowZero(2, 23588093);
    Next4(2, 23588093, 0, 1, 0, 1, 1, 2, 3, 8, 6, 64);
    Next4(2, 23588093, 6, 64, 12, 4096, 25, 9966339, 50, 10254059, 101, 17465826);
    Next4(2, 23588093, 101, 17465826, 203, 2363277, 407, 14917308, 814, 18580674, 1628, 7830189);
  }

  lemma Power23588093At637516()
    ensures Pow(2, 637516, 23588093) == 14568383
  {
    hide Pow;
    PowZero(2, 23588093);
    Next4(2, 23588093, 0, 1, 1, 2, 2, 4, 4, 16, 9, 512);
    Next4(2, 23588093, 9, 512, 19, 524288, 38, 5859215, 77, 13613818, 155, 12901652);
    Next4(2, 23588093, 155, 12901652, 311, 5423633, 622, 4074016, 1245, 19690914, 2490, 8484829);
    Next4(2, 23588093, 2490, 8484829, 4980, 861475, 9961, 21187318, 19922, 17252261, 39844, 7938685);
    Next4(2, 23588093, 39844, 7938685, 79689, 10951278, 159379, 7146585, 318758, 6967742, 637516, 14568383);
  }

  lemma Power23588093At2144372()
    ensures Pow(2, 2144372, 23588093) == 15338236
  {
    hide Pow;
    PowZero(2, 23588093);
    Next4(2, 23588093, 0, 1, 0, 1, 0, 1, 1, 2, 2, 4);
    Next4(2, 23588093, 2, 4, 4, 16, 8, 256, 16, 65536, 32, 1934370);
    Next4(2, 23588093, 32, 1934370, 65, 16208620, 130, 18029465, 261, 14741043, 523, 905568);
    Next4(2, 23588093, 523, 905568, 1047, 3110865, 2094, 17721208, 4188, 4595300, 8376, 13593610);
    Next4(2, 23588093, 8376, 13593610, 16752, 13605539, 33505, 12481397, 67011, 21384353, 134023, 156311);
    Next4(2, 23588093, 134023, 156311, 268046, 19452466, 536093, 5776169, 1072186, 20936990, 2144372, 15338236);
  }

  lemma Power23588093At11794046()
    ensures Pow(2, 11794046, 23588093) == 23588092
  {
    hide Pow;
    PowZero(2, 23588093);
    Next4(2, 23588093, 0, 1, 1, 2, 2, 4, 5, 32, 11, 2048);
    Next4(2, 23588093, 11, 2048, 22, 4194304, 44, 21168365, 89, 23534769, 179, 2167539);
    Next4(2, 23588093, 179, 2167539, 359, 15846027, 719, 1533042, 1439, 12667325, 2879, 12789698);
    Next4(2, 23588093, 2879, 12789698, 5758, 2816011, 11517, 4166204, 23035, 9423504, 46070, 3687614);
    Next4(2, 23588093, 46070, 3687614, 92140, 8574682, 184281, 935692, 368563, 541966, 737127, 16422240);
    Next4(2, 23588093, 737127, 16422240, 1474255, 21255726, 2948511, 5277686, 5897023, 10555371, 11794046, 23588092);
  }

  lemma Prime23588093()
    ensures Prime(23588093)
  {
    hide Prime, Pow, Witness;
    TrialDivision(2);
    TrialDivision(11);
    TrialDivision(37);
    Prime14489();
    Power23588093At1628();
    Power23588093At637516();
    Power23588093At2144372();
    Power23588093At11794046();
    Next(2, 23588093, 11794046, 23588092, 23588092, 1);
    var qs := NoWitness(23588093, 2);
    qs := AddWitness(23588093, 2, 1, qs, 14489, 1628, 7830189, 14489);
    qs := AddWitness(23588093, 2, 14489, qs, 37, 637516, 14568383, 536093);
    qs := AddWitness(23588093, 2, 536093, qs, 11, 2144372, 15338236, 5897023);
    qs := AddWitness(23588093, 2, 5897023, qs, 2, 11794046, 23588092, 11794046);
    qs := AddWitness(23588093, 2, 11794046, qs, 2, 11794046, 23588092, 23588092);
    Lucas(23588093, 2, qs);
  }

  lemma Power141528559At6()
    ensures Pow(6, 6, 141528559) == 46656
  {
    hide Pow;
    PowZero(6, 141528559);
    Next4(6, 141528559, 0, 1, 0, 1, 1, 6, 3, 216, 6, 46656);
  }

  lemma Power141528559At47176186()
    ensures Pow(6, 47176186, 141528559) == 88162796
  {
    hide Pow;
    PowZero(6, 141528559);
    Next4(6, 141528559, 0, 1, 0, 1, 0, 1, 1, 6, 2, 36);
    Next4(6, 141528559, 2, 36, 5, 7776, 11, 79739938, 22, 37722633, 44, 125387015);
    Next4(6, 141528559, 44, 125387015, 89, 74635739, 179, 34936695, 359, 40986717, 719, 132159693);
    Next4(6, 141528559, 719, 132159693, 1439, 91461880, 2879, 35657591, 5758, 93693317, 11517, 66521353);
    Next4(6, 141528559, 11517, 66521353, 23035, 26241893, 46070, 23411559, 92140, 47685765, 184281, 123303845);
    Next4(6, 141528559, 184281, 123303845, 368563, 66052657, 737127, 42113324, 1474255, 91891133, 2948511, 19062919);
    Next4(6, 141528559, 2948511, 19062919, 5897023, 118847626, 11794046, 112182705, 23588093, 88162797, 47176186,
        88162796);
  }

  lemma Power141528559At70764279()
    ensures Pow(6, 70764279, 141528559) == 141528558
  {
    hide Pow;
    PowZero(6, 141528559);
    Next4(6, 141528559, 0, 1, 0, 1, 1, 6, 2, 36, 4, 1296);
    Next4(6, 141528559, 4, 1296, 8, 1679616, 16, 21140909, 33, 118755137, 67, 63534671);
    Next4(6, 141528559, 67, 63534671, 134, 69963917, 269, 60475954, 539, 117157319, 1079, 6124708);
    Next4(6, 141528559, 1079, 6124708, 2159, 128776679, 4319, 16071591, 8638, 48311126, 17276, 20906119);
    Next4(6, 141528559, 17276, 20906119, 34552, 4780982, 69105, 40021143, 138211, 136004772, 276422, 80786559);
    Next4(6, 141528559, 276422, 80786559, 552845, 6617500, 1105691, 67716500, 2211383, 25042360, 4422767, 19475726);
    Next4(6, 141528559, 4422767, 19475726, 8845534, 5622008, 17691069, 84966098, 35382139, 112277303, 70764279,
        141528558);
  }

  lemma Prime141528559()
    ensures Prime(141528559)
  {
    hide Prime, Pow, Witness;
    TrialDivision(2);
    TrialDivision(3);
    Prime23588093();
    Power141528559At6();
    Power141528559At47176186();
    Power141528559At70764279();
    Next(6, 141528559, 70764279, 141528558, 141528558, 1);
    var qs := NoWitness(141528559, 6);
    qs := AddWitness(141528559, 6, 1, qs, 23588093, 6, 46656, 23588093);
    qs := AddWitness(141528559, 6, 23588093, qs, 3, 47176186, 88162796, 70764279);
    qs := AddWitness(141528559, 6, 70764279, qs, 2, 70764279, 141528558, 141528558);
    Lucas(141528559, 6, qs);
  }

  lemma Power283057213At1563852()
    ensures Pow(5, 1563852, 283057213) == 31507731
  {
    hide Pow;
    PowZero(5, 283057213);
    Next4(5, 283057213, 0, 1, 0, 1, 0, 1, 0, 1, 1, 5);
    Next4(5, 283057213, 1, 5, 2, 25, 5, 3125, 11, 48828125, 23, 187789508);
    Next4(5, 283057213, 23, 187789508, 47, 38660021, 95, 280733956, 190, 188150565, 381, 93223264);
    Next4(5, 283057213, 381, 93223264, 763, 89418629, 1527, 182213230, 3054, 42139728, 6108, 80730614);
    Next4(5, 283057213, 6108, 80730614, 12217, 114353667, 24435, 93960353, 48870, 255787721, 97740, 211578717);
    Next4(5, 283057213, 97740, 211578717, 195481, 276297770, 390963, 249825992, 781926, 16439688, 1563852, 31507731);
  }

  lemma Power283057213At14897748()
    ensures Pow(5, 14897748, 283057213) == 16695142
  {
    hide Pow;
    PowZero(5, 283057213);
    Next4(5, 283057213, 0, 1, 1, 5, 3, 125, 7, 78125, 14, 159314152);
    Next4(5, 283057213, 14, 159314152, 28, 64609951, 56, 77490171, 113, 118797089, 227, 127926820);
    Next4(5, 283057213, 227, 127926820, 454, 66352775, 909, 37941196, 1818, 192758771, 3637, 254583668);
    Next4(5, 283057213, 3637, 254583668, 7274, 105332757, 14548, 82061031, 29097, 106006446, 58194, 49423537);
    Next4(5, 283057213, 58194, 49423537, 116388, 199196067, 232777, 250502510, 465554, 23364259, 931109, 128869980);
    Next4(5, 283057213, 931109, 128869980, 1862218, 84422408, 3724437, 20072494, 7448874, 246166984, 14897748,
        16695142);
  }

  lemma Power283057213At94352404()
    ensures Pow(5, 94352404, 283057213) == 204891457
  {
    hide Pow;
    PowZero(5, 283057213);
    Next4(5, 283057213, 0, 1, 0, 1, 1, 5, 2, 25, 5, 3125);
    Next4(5, 283057213, 5, 3125, 11, 48828125, 22, 264003672, 44, 131647827, 89, 82679731);
    Next4(5, 283057213, 89, 82679731, 179, 106080217, 359, 102070101, 719, 28549244, 1439, 254695090);
    Next4(5, 283057213, 1439, 254695090, 2879, 153624911, 5758, 29733540, 11517, 256973030, 23035, 182504158);
    Next4(5, 283057213, 23035, 182504158, 46070, 281645038, 92141, 217767987, 184282, 198995569, 368564, 276506850);
    Next4(5, 283057213, 368564, 276506850, 737128, 27799164, 1474256, 57054325, 2948512, 122039083, 5897025,
        90803046);
    Next4(5, 283057213, 5897025, 90803046, 11794050, 74453419, 23588101, 195745182, 47176202, 204891458, 94352404,
        204891457);
  }

  lemma Power283057213At141528606()
    ensures Pow(5, 141528606, 283057213) == 283057212
  {
    hide Pow;
    PowZero(5, 283057213);
    Next4(5, 283057213, 0, 1, 1, 5, 2, 25, 4, 625, 8, 390625);
    Next4(5, 283057213, 8, 390625, 16, 20052818, 33, 86304006, 67, 111755782, 134, 171941549);
    Next4(5, 283057213, 134, 171941549, 269, 200204107, 539, 246967029, 1079, 143940660, 2159, 149889998);
    Next4(5, 283057213, 2159, 149889998, 4319, 215607791, 8638, 209766169, 17276, 116451723, 34552, 203905014);
    Next4(5, 283057213, 34552, 203905014, 69105, 28971045, 138211, 152850486, 276423, 240302889, 552846, 255555742);
    Next4(5, 283057213, 552846, 255555742, 1105692, 52627350, 2211384, 130379436, 4422768, 206156456, 8845537,
        129767405);
    Next4(5, 283057213, 8845537, 129767405, 17691075, 162179183, 35382151, 271456639, 70764303, 245393773, 141528606,
        283057212);
  }

  lemma Prime283057213()
    ensures Prime(283057213)
  {
    hide Prime, Pow, Witness;
    TrialDivision(2);
    TrialDivision(3);
    TrialDivision(19);
    TrialDivision(181);
    Power283057213At1563852();
    Power283057213At14897748();
    Power283057213At94352404();
    Power283057213At141528606();
    Next(5, 283057213, 141528606, 283057212, 283057212, 1);
    var qs := NoWitness(283057213, 5);
    qs := AddWitness(283057213, 5, 1, qs, 181, 1563852, 31507731, 181);
    qs := AddWitness(283057213, 5, 181, qs, 19, 14897748, 16695142, 3439);
    qs := AddWitness(283057213, 5, 3439, qs, 19, 14897748, 16695142, 65341);
    qs := AddWitness(283057213, 5, 65341, qs, 19, 14897748, 16695142, 1241479);
    qs := AddWitness(283057213, 5, 1241479, qs, 19, 14897748, 16695142, 23588101);
    qs := AddWitness(283057213, 5, 23588101, qs, 3, 94352404, 204891457, 70764303);
    qs := AddWitness(283057213, 5, 70764303, qs, 2, 141528606, 283057212, 141528606);
    qs := AddWitness(283057213, 5, 141528606, qs, 2, 141528606, 283057212, 283057212);
    Lucas(283057213, 5, qs);
  }

  lemma Power4673At64()
    ensures Pow(3, 64, 4673) == 2591
  {
    hide Pow;
    PowZero(3, 4673);
    Next4(3, 4673, 0, 1, 0, 1, 1, 3, 2, 9, 4, 81);
    Next4(3, 4673, 4, 81, 8, 1888, 16, 3718, 32, 790, 64, 2591);
  }

  lemma Power4673At2336()
    ensures Pow(3, 2336, 4673) == 4672
  {
    hide Pow;
    PowZero(3, 4673);
    Next4(3, 4673, 0, 1, 1, 3, 2, 9, 4, 81, 9, 991);
    Next4(3, 4673, 9, 991, 18, 751, 36, 3241, 73, 2204, 146, 2369);
    Next4(3, 4673, 146, 2369, 292, 4561, 584, 3198, 1168, 2680, 2336, 4672);
  }

  lemma Prime4673()
    ensures Prime(4673)
  {
    hide Prime, Pow, Witness;
    TrialDivision(2);
    TrialDivision(73);
    Power4673At64();
    Power4673At2336();
    Next(3, 4673, 2336, 4672, 4672, 1);
    var qs := NoWitness(4673, 3);
    qs := AddWitness(4673, 3, 1, qs, 73, 64, 2591, 73);
    qs := AddWitness(4673, 3, 73, qs, 2, 2336, 4672, 146);
    qs := AddWitness(4673, 3, 146, qs, 2, 2336, 4672, 292);
    qs := AddWitness(4673, 3, 292, qs, 2, 2336, 4672, 584);
    qs := AddWitness(4673, 3, 584, qs, 2, 2336, 4672, 1168);
    qs := AddWitness(4673, 3, 1168, qs, 2, 2336, 4672, 2336);
    qs := AddWitness(4673, 3, 2336, qs, 2, 2336, 4672, 4672);
    Lucas(4673, 3, qs);
  }

  lemma Power566115259At121146()
    ensures Pow(2, 121146, 566115259) == 502461380
  {
    hide Pow;
    PowZero(2, 566115259);
    Next4(2, 566115259, 0, 1, 0, 1, 0, 1, 0, 1, 1, 2);
    Next4(2, 566115259, 1, 2, 3, 8, 7, 128, 14, 16384, 29, 536870912);
    Next4(2, 566115259, 29, 536870912, 59, 188793923, 118, 469553282, 236, 442022813, 473, 54576752);
    Next4(2, 566115259, 473, 54576752, 946, 196373155, 1892, 407619330, 3785, 459946970, 7571, 148189141);
    Next4(2, 566115259, 7571, 148189141, 15143, 360290212, 30286, 213040398, 60573, 394269940, 121146, 502461380);
  }

  lemma Power566115259At1710318()
    ensures Pow(2, 1710318, 566115259) == 79474152
  {
    hide Pow;
    PowZero(2, 566115259);
    Next4(2, 566115259, 0, 1, 0, 1, 0, 1, 0, 1, 1, 2);
    Next4(2, 566115259, 1, 2, 3, 8, 6, 64, 13, 8192, 26, 67108864);
    Next4(2, 566115259, 26, 67108864, 52, 457020825, 104, 456472908, 208, 62477899, 417, 45160737);
    Next4(2, 566115259, 417, 45160737, 835, 478544876, 1670, 155539344, 3340, 301870464, 6680, 78062103);
    Next4(2, 566115259, 6680, 78062103, 13361, 206748354, 26723, 481714285, 53447, 303230551, 106894, 44479158);
    Next4(2, 566115259, 106894, 44479158, 213789, 286635321, 427579, 303983994, 855159, 150537630, 1710318, 79474152);
  }

  lemma Power566115259At9280578()
    ensures Pow(2, 9280578, 566115259) == 25038040
  {
    hide Pow;
    PowZero(2, 566115259);
    Next4(2, 566115259, 0, 1, 1, 2, 2, 4, 4, 16, 8, 256);
    Next4(2, 566115259, 8, 256, 17, 131072, 35, 392822828, 70, 559347666, 141, 350544803);
    Next4(2, 566115259, 141, 350544803, 283, 76339723, 566, 356491396, 1132, 324951794, 2265, 500944048);
    Next4(2, 566115259, 2265, 500944048, 4531, 438351826, 9063, 116012428, 18126, 407002248, 36252, 188874988);
    Next4(2, 566115259, 36252, 188874988, 72504, 120501518, 145009, 91878798, 290018, 353942195, 580036, 117028061);
    Next4(2, 566115259, 580036, 117028061, 1160072, 286023029, 2320144, 267405368, 4640289, 519755678, 9280578,
        25038040);
  }

  lemma Power566115259At188705086()
    ensures Pow(2, 188705086, 566115259) == 403910838
  {
    hide Pow;
    PowZero(2, 566115259);
    Next4(2, 566115259, 0, 1, 1, 2, 2, 4, 5, 32, 11, 2048);
    Next4(2, 566115259, 11, 2048, 22, 4194304, 44, 154370991, 89, 242644628, 179, 24014642);
    Next4(2, 566115259, 179, 24014642, 359, 1513433, 719, 520330409, 1439, 296397304, 2879, 95866590);
    Next4(2, 566115259, 2879, 95866590, 5758, 215756955, 11517, 42532691, 23035, 3676192, 46070, 84158016);
    Next4(2, 566115259, 46070, 84158016, 92141, 348717831, 184282, 125329737, 368564, 306145441, 737129, 259909369);
    Next4(2, 566115259, 737129, 259909369, 1474258, 426294959, 2948516, 309286582, 5897033, 218085074, 11794067,
        440808857);
    Next4(2, 566115259, 11794067, 440808857, 23588135, 497165210, 47176271, 243676834, 94352543, 403910839,
        188705086, 403910838);
  }

  lemma Power566115259At283057629()
    ensures Pow(2, 283057629, 566115259) == 566115258
  {
    hide Pow;
    PowZero(2, 566115259);
    Next4(2, 566115259, 0, 1, 0, 1, 0, 1, 0, 1, 1, 2);
    Next4(2, 566115259, 1, 2, 2, 4, 4, 16, 8, 256, 16, 65536);
    Next4(2, 566115259, 16, 65536, 33, 98205707, 67, 211447273, 134, 316755689, 269, 159742870);
    Next4(2, 566115259, 269, 159742870, 539, 470231631, 1079, 409623100, 2159, 298973204, 4319, 422261220);
    Next4(2, 566115259, 4319, 422261220, 8638, 160942727, 17276, 157295954, 34552, 134433167, 69105, 168342090);
    Next4(2, 566115259, 69105, 168342090, 138211, 493220030, 276423, 118238655, 552846, 174009433, 1105693,
        275156646);
    Next4(2, 566115259, 1105693, 275156646, 2211387, 304372314, 4422775, 425689199, 8845550, 229373334, 17691101,
        208888855);
    Next4(2, 566115259, 17691101, 208888855, 35382203, 354805760, 70764407, 387344752, 141528814, 212899970,
        283057629, 566115258);
  }

  lemma Prime566115259()
    ensures Prime(566115259)
  {
    hide Prime, Pow, Witness;
    TrialDivision(2);
    TrialDivision(3);
    TrialDivision(61);
    TrialDivision(331);
    Prime4673();
    Power566115259At121146();
    Power566115259At1710318();
    Power566115259At9280578();
    Power566115259At188705086();
    Power566115259At283057629();
    Next(2, 566115259, 283057629, 566115258, 566115258, 1);
    var qs := NoWitness(566115259, 2);
    qs := AddWitness(566115259, 2, 1, qs, 4673, 121146, 502461380, 4673);
    qs := AddWitness(566115259, 2, 4673, qs, 331, 1710318, 79474152, 1546763);
    qs := AddWitness(566115259, 2, 1546763, qs, 61, 9280578, 25038040, 94352543);
    qs := AddWitness(566115259, 2, 94352543, qs, 3, 188705086, 403910838, 283057629);
    qs := AddWitness(566115259, 2, 283057629, qs, 2, 283057629, 566115258, 566115258);
    Lucas(566115259, 2, qs);
  }

  /** Every table size is prime. */
  lemma SizesArePrime(k: nat)
    requires k < |TABLE_SIZE|
    ensures Prime(TABLE_SIZE[k])
  {
    hide Prime;
    if k == 0 { TrialDivision(7); }
    else if k == 1 { TrialDivision(19); }
    else if k == 2 { TrialDivision(43); }
    else if k == 3 { TrialDivision(103); }
    else if k == 4 { TrialDivision(229); }
    else if k == 5 { TrialDivision(463); }
    else if k == 6 { Prime1021(); }
    else if k == 7 { Prime2083(); }
    else if k == 8 { Prime4219(); }
    else if k == 9 { Prime8539(); }
    else if k == 10 { Prime17191(); }
    else if k == 11 { Prime34471(); }
    else if k == 12 { Prime69031(); }
    else if k == 13 { Prime138079(); }
    else if k == 14 { Prime276373(); }
    else if k == 15 { Prime552751(); }
    else if k == 16 { Prime1105549(); }
    else if k == 17 { Prime2211259(); }
    else if k == 18 { Prime4422619(); }
    else if k == 19 { Prime8845453(); }
    else if k == 20 { Prime17691043(); }
    else if k == 21 { Prime35382091(); }
    else if k == 22 { Prime70764259(); }
    else if k == 23 { Prime141528559(); }
    else if k == 24 { Prime283057213(); }
    else if k == 25 { Prime566115259(); }
  }
}
